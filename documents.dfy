/** Values and documents shared by every component: the dynamic metadata
    dictionaries of LangChain documents, written as a Dafny map from key to a
    small Python value type. */
module Documents {
  import opened Strings

  datatype Option<+T> = None | Some(value: T)

  /** The Python values stored in a chunk's metadata: `None`, `str` and `int`. */
  datatype Value = VNone | VStr(s: string) | VInt(n: int)

  /** A metadata dictionary. */
  type Meta = map<string, Value>

  /** The three shapes of `doc.metadata` the source tests for: no attribute at
      all, an attribute holding `None`, or a dictionary. */
  datatype Metadata = Missing | Null | Dict(entries: Meta)

  /** A retrieved or ingested chunk: its text (`page_content`) and metadata. */
  datatype Document = Document(pageContent: string, metadata: Metadata)

  /** Python truthiness of a metadata value. */
  predicate Truthy(v: Value)
  {
    match v
    case VNone => false
    case VStr(s) => s != ""
    case VInt(n) => n != 0
  }

  /** A truthy value that is not a string: calling a string method on it raises. */
  predicate TruthyNonString(v: Value)
  {
    v.VInt? && v.n != 0
  }

  /** `str(v)`, as an f-string renders it. */
  function Show(v: Value): (r: string)
    ensures v.VStr? ==> r == v.s
    ensures v.VInt? && v.n >= 0 ==> r == NatToString(v.n)
    ensures v.VNone? ==> r == "None"
  {
    match v
    case VNone => "None"
    case VStr(s) => s
    case VInt(n) => IntToString(n)
  }

  /** `m.get(key, default)`. */
  function Get(m: Meta, key: string, default: Value): (r: Value)
    ensures key in m ==> r == m[key]
    ensures key !in m ==> r == default
  {
    if key in m then m[key] else default
  }
}
