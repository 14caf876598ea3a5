/** Typed public identifiers (ids.py). */
module PublicIds {
  import opened Base64Url
  import opened Wrappers

  type Uuid = bs: seq<Byte> | |bs| == 16 witness seq(16, _ => 0)

  datatype IdError = UnsupportedPrefix | NoPrefix | WrongType | BadPayload

  const PREFIXES: set<string> := {
    "usr", "org", "prj", "agt", "run", "tsk", "evt", "iss", "pg",
    "kw", "cmp", "msg", "int", "rpt", "whk", "inv", "sch"
  }

  /** Index of the first underscore, or the length if there is none. */
  function Cut(s: string): (n: nat)
    ensures n <= |s| && '_' !in s[..n] && (n < |s| ==> s[n] == '_')
  {
    if s == [] || s[0] == '_' then 0
    else
      var n := Cut(s[1..]);
      assert s[..n + 1] == [s[0]] + s[1..][..n];
      n + 1
  }

  function EncodeId(value: Uuid, prefix: string): Result<string, IdError> {
    if prefix !in PREFIXES then Err(UnsupportedPrefix) else Ok(prefix + "_" + Encode(value))
  }

  function DecodeId(value: string, expected: Option<string>): Result<Uuid, IdError> {
    var n := Cut(value);
    if n == |value| then Err(NoPrefix)
    else
      var prefix, token := value[..n], value[n + 1..];
      if prefix !in PREFIXES || (expected.Some? && prefix != expected.value) then Err(WrongType)
      else
        match if Ascii(token) then Decode(token) else None
        case None => Err(BadPayload)
        case Some(raw) => if |raw| != 16 then Err(BadPayload) else Ok(raw)
  }

  predicate Ascii(s: string) {
    forall i :: 0 <= i < |s| ==> s[i] as int < 128
  }

  lemma PrefixesHaveNoUnderscore()
    ensures forall p :: p in PREFIXES ==> '_' !in p
  {
  }

  /** Seventeen types have identifiers, and no others. */
  lemma EncodesIff(value: Uuid, prefix: string)
    ensures EncodeId(value, prefix).Ok? <==>
      prefix in ["usr", "org", "prj", "agt", "run", "tsk", "evt", "iss", "pg", "kw", "cmp", "msg", "int", "rpt", "whk",
                 "inv", "sch"]
  {
  }

  /** The first underscore ends the prefix, whatever underscores the token has. */
  lemma CutAtPrefix(prefix: string, token: string)
    requires '_' !in prefix
    ensures Cut(prefix + "_" + token) == |prefix|
  {
    var s := prefix + "_" + token;
    var n := Cut(s);
    assert s[|prefix|] == '_';
    assert forall i :: 0 <= i < |prefix| ==> s[i] == prefix[i];
    assert forall i :: 0 <= i < n ==> s[i] == s[..n][i] != '_';
  }

  /** What an encoded identifier decodes to, whichever type is expected. */
  lemma DecodeEncodedId(value: Uuid, prefix: string, expected: Option<string>)
    requires prefix in PREFIXES
    ensures DecodeId(EncodeId(value, prefix).value, expected)
      == if expected.Some? && expected.value != prefix then Err(WrongType) else Ok(value)
  {
    PrefixesHaveNoUnderscore();
    var token := Encode(value);
    var s := prefix + "_" + token;
    CutAtPrefix(prefix, token);
    assert s[..|prefix|] == prefix && s[|prefix| + 1..] == token;
    DecodeEncode(value);
    EncodedAscii(value);
  }

  lemma EncodedAscii(value: Uuid)
    ensures Ascii(Encode(value))
  {
    forall v: Sextet ensures Letter(v) as int < 128 {
    }
  }

  /** A token with a character beyond ASCII is no payload. */
  lemma BeyondAscii(prefix: string, token: string, expected: Option<string>, i: nat)
    requires prefix in PREFIXES && i < |token| && token[i] as int >= 128
    ensures DecodeId(prefix + "_" + token, expected).Err?
  {
    PrefixesHaveNoUnderscore();
    var s := prefix + "_" + token;
    CutAtPrefix(prefix, token);
    assert s[|prefix| + 1..] == token;
  }

  /** decode_id(encode_id(v, p), p) is v, for every supported prefix. */
  lemma RoundTrip(value: Uuid, prefix: string)
    requires prefix in PREFIXES
    ensures EncodeId(value, prefix).Ok? && DecodeId(EncodeId(value, prefix).value, Some(prefix)) == Ok(value)
  {
    DecodeEncodedId(value, prefix, Some(prefix));
  }

  /** An identifier of one type never passes for one of another. */
  lemma TypeSafety(value: Uuid, prefix: string, expected: string)
    requires prefix in PREFIXES && expected != prefix
    ensures DecodeId(EncodeId(value, prefix).value, Some(expected)) == Err(WrongType)
  {
    DecodeEncodedId(value, prefix, Some(expected));
  }

  /** Different values or types have different identifiers. */
  lemma EncodingInjective(value: Uuid, prefix: string, value': Uuid, prefix': string)
    requires prefix in PREFIXES && EncodeId(value, prefix) == EncodeId(value', prefix')
    ensures value == value' && prefix == prefix'
  {
    DecodeEncodedId(value, prefix, Some(prefix'));
    DecodeEncodedId(value', prefix', Some(prefix'));
  }

  /** Tokens have 22 characters. */
  lemma TokenLength(value: Uuid, prefix: string)
    requires prefix in PREFIXES
    ensures |EncodeId(value, prefix).value| == |prefix| + 1 + 22
  {
    assert Size(16) == 4 + Size(13) && Size(13) == 4 + Size(10) && Size(10) == 4 + Size(7) && Size(7) == 4 + Size(4);
  }

  /** An identifier that decodes is the one its value encodes to if and only if what
      follows the prefix is 22 letters of the URL-safe alphabet, the last of them with its
      four low bits zero. */
  lemma EncodedIffCanonical(s: string, prefix: string, value: Uuid)
    requires DecodeId(s, Some(prefix)) == Ok(value)
    ensures prefix in PREFIXES && |prefix| < |s|
    ensures s == EncodeId(value, prefix).value <==> |s| - |prefix| - 1 == 22 && Canonical(s[|prefix| + 1..])
  {
    var token := s[Cut(s) + 1..];
    assert s[..Cut(s)] == prefix && s == prefix + "_" + token;
    assert Decode(token) == Some(value);
    DecodedIffCanonical(token, value);
    TokenLength(value, prefix);
  }

  /** Decoding is not injective: ASCII characters outside the alphabet that follow the
      token, by fours, are not looked at. */
  lemma LenientPayload(value: Uuid, prefix: string, junk: string)
    requires prefix in PREFIXES
    requires |junk| % 4 == 0 && Ascii(junk) && forall i :: 0 <= i < |junk| ==> Classify(junk[i]) == Other
    ensures DecodeId(EncodeId(value, prefix).value + junk, Some(prefix)) == Ok(value)
  {
    PrefixesHaveNoUnderscore();
    var token := Encode(value) + junk;
    var s := prefix + "_" + token;
    assert EncodeId(value, prefix).value + junk == s;
    CutAtPrefix(prefix, token);
    assert s[..|prefix|] == prefix && s[|prefix| + 1..] == token;
    JunkIgnored(value, junk);
    EncodedAscii(value);
    assert Ascii(token);
  }
}
