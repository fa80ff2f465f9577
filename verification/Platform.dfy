/**
 The library services the plugin calls and this model does not define: SHA-256
 truncated to 24 hexadecimal digits, RFC 3339 time text and the JSON byte
 parser. `LIB` is a constant without a value, so a proof knows of it only the
 laws in `Lawful`; `STAND_IN` shows that the laws can be met.
 */
module Platform {
  import opened Text

  datatype Json =
    | JNull
    | JBool(flag: bool)
    | JNumber(text: string)
    | JString(str: string)
    | JArray(items: seq<Json>)
    | JObject(fields: map<string, Json>)

  /** The bytes of a file or of a response: one JSON value, or anything else. */
  datatype Document = Malformed | Parsed(json: Json)

  /** An instant; 0 is Go's zero `time.Time`. */
  type Time = nat

  const HASH_LENGTH := 24

  predicate IsHexDigit(c: char) {
    '0' <= c <= '9' || 'a' <= c <= 'f'
  }

  predicate IsHex(s: string) {
    |s| == HASH_LENGTH && forall i | 0 <= i < |s| :: IsHexDigit(s[i])
  }

  datatype Services = Services(
    digest: string -> string,
    formatTime: Time -> string,
    parseTime: string -> Option<Time>,
    parseJson: string -> Document)

  ghost predicate Lawful(services: Services) {
    && (forall bytes :: IsHex(services.digest(bytes)))
    && (forall t: Time :: services.parseTime(services.formatTime(t)) == Some(t))
  }

  function Strokes(t: Time): (s: string)
    ensures |s| == t
  {
    seq(t, _ => '|')
  }

  const STAND_IN := Services(_ => "000000000000000000000000", Strokes, s => Some(|s|), _ => Malformed)

  type Library = services: Services | Lawful(services) witness STAND_IN

  const LIB: Library
}
