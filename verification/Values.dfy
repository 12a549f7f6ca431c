/**
 Decoded JSON documents, as every part of the engine sees them.

 A number is represented by its rank in numeric order, because the engine only
 ever compares numbers and renders them; nothing here does arithmetic on them.
 Arrays and objects are carried by their rendering, which is all that filters,
 sorts and index keys look at.
 */
module Values {
  datatype Option<+T> = None | Some(value: T)

  datatype Value =
    | Null
    | Bool(b: bool)
    | Num(rank: int)
    | Str(s: string)
    | Composite(text: string)

  type Data = map<string, Value>

  lemma Associate<T>(a: seq<T>, b: seq<T>, c: seq<T>)
    ensures (a + b) + c == a + (b + c)
  {
  }
}
