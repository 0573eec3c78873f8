/** Values shared by every component: bytes, content hashes, JSON values and optional values. */
module Content {

  datatype Option<+T> = None | Some(value: T)

  type Byte = b: int | 0 <= b < 0x100
  type Bytes = seq<Byte>

  /** Hex text of a SHA-256 digest, compared as text only. */
  type Sha = string

  /** A UTF-16 code unit; JSON text is a sequence of them, ordered as `Array.sort` orders strings. */
  type CodeUnit = u: int | 0 <= u < 0x1_0000
  type Text = seq<CodeUnit>

  /** A JSON value. Object keys are unordered: two objects are equal when they have equal members. */
  datatype Json =
    | Null
    | Bool(b: bool)
    | Num(n: real)
    | Str(s: Text)
    | Arr(items: seq<Json>)
    | Obj(fields: map<Text, Json>)
}
