/** The parsed-JSON payload trees the source adapters receive (what
    `json.loads` returns), the Python exceptions the normalisers can
    raise, and the Python operators they apply to payloads: truthiness,
    `x or default`, `d.get(k)`, `d.get(k, default)`, `x[k]`, `x[i]` and
    `s in x`. */
module PyJson {
  import opened Wrappers
  import Text
  import opened Records

  datatype Json =
    | JNull
    | JBool(b: bool)
    | JInt(i: int)
    | JFloat(r: real)
    | JStr(s: string)
    | JArr(items: seq<Json>)
    | JObj(fields: map<string, Json>)

  /** The exceptions the modelled code can raise. `ValidationError` is
      pydantic's rejection of a field value; `AiError` is a failure of the
      AI client that was not retried, with the status it carried, if any;
      `ProgrammingError` is the database driver's rejection of a malformed
      statement; `NameError` is the use of a name the module never
      imported. */
  datatype Error =
    | KeyError(key: Json)
    | IndexError
    | AttributeError
    | TypeError
    | ValueError
    | ValidationError(field: string)
    | AiError(status: Option<string>)
    | ProgrammingError
    | NameError

  /** The library calls the normalisers make and the model does not
      open: the text of an HTML fragment (`BeautifulSoup(...).get_text`),
      `str(x)` and `json.dumps(x)`. */
  datatype Libs = Libs(stripHtml: string -> string, pyStr: Json -> string, dumps: Json -> string)

  /** Python truthiness of a JSON value. */
  predicate Truthy(j: Json) {
    match j
    case JNull => false
    case JBool(b) => b
    case JInt(i) => i != 0
    case JFloat(r) => r != 0.0
    case JStr(s) => |s| > 0
    case JArr(a) => |a| > 0
    case JObj(m) => |m| > 0
  }

  /** `j or d`. */
  function Or(j: Json, d: Json): (r: Json)
    ensures Truthy(j) ==> r == j
    ensures !Truthy(j) ==> r == d
  {
    if Truthy(j) then j else d
  }

  const EmptyObj: Json := JObj(map[])
  const EmptyArr: Json := JArr([])

  /** The fields of a dict; calling `get` on anything else raises. */
  function AsDict(j: Json): (r: Result<map<string, Json>, Error>)
    ensures r.Ok? <==> j.JObj?
    ensures r.Ok? ==> r.value == j.fields
    ensures r.Err? ==> r.error == AttributeError
  {
    match j
    case JObj(m) => Ok(m)
    case _ => Err(AttributeError)
  }

  /** `d.get(key)` on the fields of a dict. */
  function DictGet(fields: map<string, Json>, key: string): (r: Json)
    ensures key in fields ==> r == fields[key]
    ensures key !in fields ==> r == JNull
  {
    if key in fields then fields[key] else JNull
  }

  /** `j.get(key, default)`: the value under `key`, `default` when the key
      is missing; anything but a dict has no `get`. */
  function GetOr(j: Json, key: string, default: Json): (r: Result<Json, Error>)
    ensures r.Ok? <==> j.JObj?
    ensures j.JObj? && key in j.fields ==> r == Ok(j.fields[key])
    ensures j.JObj? && key !in j.fields ==> r == Ok(default)
  {
    match j
    case JObj(m) => Ok(if key in m then m[key] else default)
    case _ => Err(AttributeError)
  }

  /** `j.get(key)`: a missing key reads as `None`. */
  function Get(j: Json, key: string): Result<Json, Error> {
    GetOr(j, key, JNull)
  }

  /** `j[key]` with a string key: only a dict holding `key` succeeds. */
  function Subscript(j: Json, key: string): (r: Result<Json, Error>)
    ensures r.Ok? <==> j.JObj? && key in j.fields
    ensures r.Ok? ==> r.value == j.fields[key]
    ensures j.JObj? && key !in j.fields ==> r == Err(KeyError(JStr(key)))
  {
    match j
    case JObj(m) => if key in m then Ok(m[key]) else Err(KeyError(JStr(key)))
    case _ => Err(TypeError)
  }

  /** `j[i]` with an integer index, negative indices counting from the end.
      A string yields its `i`-th character as a one-character string. */
  function At(j: Json, i: int): (r: Result<Json, Error>)
    ensures j.JArr? && 0 <= i < |j.items| ==> r == Ok(j.items[i])
    ensures j.JArr? && -|j.items| <= i < 0 ==> r == Ok(j.items[|j.items| + i])
    ensures j.JArr? && (i < -|j.items| || |j.items| <= i) ==> r == Err(IndexError)
  {
    match j
    case JArr(a) =>
      if 0 <= i < |a| then Ok(a[i])
      else if -|a| <= i < 0 then Ok(a[|a| + i])
      else Err(IndexError)
    case JStr(s) =>
      if 0 <= i < |s| then Ok(JStr([s[i]]))
      else if -|s| <= i < 0 then Ok(JStr([s[|s| + i]]))
      else Err(IndexError)
    case JObj(_) => Err(KeyError(JInt(i)))
    case _ => Err(TypeError)
  }

  /** `s in j`: list membership, substring test on a string, key test on a
      dict; numbers, booleans and `None` are not containers. */
  function Contains(j: Json, s: string): (r: Result<bool, Error>)
    ensures j.JArr? ==> r == Ok(JStr(s) in j.items)
    ensures j.JObj? ==> r == Ok(s in j.fields)
    ensures j.JStr? ==> r == Ok(Text.IsSubstring(s, j.s))
    ensures r.Err? <==> !(j.JArr? || j.JObj? || j.JStr?)
  {
    match j
    case JArr(a) => Ok(JStr(s) in a)
    case JObj(m) => Ok(s in m)
    case JStr(t) => Ok(Text.IsSubstring(s, t))
    case _ => Err(TypeError)
  }

  /** The elements a `for` loop visits: a list's items, or a string's
      characters as one-character strings; an empty dict has no keys to
      visit. A non-empty dict visits its keys in insertion order, which a
      map does not keep, so it is reported as `TypeError`; `None` and
      numbers are not iterable. */
  function Items(j: Json): (r: Result<seq<Json>, Error>)
    ensures r.Ok? <==> j.JArr? || j.JStr? || j == EmptyObj
    ensures j.JArr? ==> r == Ok(j.items)
    ensures j.JStr? ==> r.Ok? && |r.value| == |j.s| && forall i | 0 <= i < |j.s| :: r.value[i] == JStr([j.s[i]])
    ensures j == EmptyObj ==> r == Ok([])
    ensures r.Ok? && !j.JArr? ==> forall i | 0 <= i < |r.value| :: r.value[i].JStr?
    ensures r.Err? ==> r.error == TypeError
  {
    match j
    case JArr(a) => Ok(a)
    case JStr(s) => Ok(seq(|s|, i requires 0 <= i < |s| => JStr([s[i]])))
    case JObj(m) => if m == map[] then Ok([]) else Err(TypeError)
    case _ => Err(TypeError)
  }

  // ---------------------------------------------------------------------
  // pydantic field validation: each field accepts only values of its
  // declared kind (an integer is accepted where a float is declared).

  /** The declared type of a model's `listing_id`. */
  datatype KeyKind = IntKey | StrKey

  /** pydantic's (lax) reading of `listing_id`. An `int` key takes an
      integer, a boolean, an integral float or a decimal string; a `str`
      key takes only a string. */
  function KeyField(kind: KeyKind, name: string, j: Json): (r: Result<Value, Error>)
    ensures kind == StrKey ==> (r.Ok? <==> j.JStr?) && (j.JStr? ==> r == Ok(VStr(j.s)))
    ensures kind == IntKey && r.Ok? ==> r.value.VInt?
    ensures kind == IntKey && j.JInt? ==> r == Ok(VInt(j.i))
    ensures kind == IntKey && j.JStr? ==>
      (r.Ok? <==> Text.ParseInt(j.s).Some?) && (r.Ok? ==> r.value.i == Text.ParseInt(j.s).value)
    ensures kind == IntKey && (j.JNull? || j.JArr? || j.JObj?) ==> r.Err?
    ensures r.Err? ==> r.error == ValidationError(name)
  {
    match kind
    case StrKey =>
      (match j
       case JStr(s) => Ok(VStr(s))
       case _ => Err(ValidationError(name)))
    case IntKey =>
      match j
      case JInt(i) => Ok(VInt(i))
      case JBool(b) => Ok(VInt(if b then 1 else 0))
      case JFloat(x) => if x == x.Floor as real then Ok(VInt(x.Floor)) else Err(ValidationError(name))
      case JStr(s) =>
        (match Text.ParseInt(s)
         case Some(n) => Ok(VInt(n))
         case None => Err(ValidationError(name)))
      case _ => Err(ValidationError(name))
  }

  function StrField(name: string, j: Json): (r: Result<string, Error>)
    ensures r.Ok? <==> j.JStr?
    ensures r.Ok? ==> r.value == j.s
    ensures r.Err? ==> r.error == ValidationError(name)
  {
    match j
    case JStr(s) => Ok(s)
    case _ => Err(ValidationError(name))
  }

  function OptStrField(name: string, j: Json): (r: Result<Option<string>, Error>)
    ensures r.Ok? <==> j.JStr? || j.JNull?
    ensures j.JNull? ==> r == Ok(None)
    ensures j.JStr? ==> r == Ok(Some(j.s))
    ensures r.Err? ==> r.error == ValidationError(name)
  {
    match j
    case JNull => Ok(None)
    case JStr(s) => Ok(Some(s))
    case _ => Err(ValidationError(name))
  }

  function OptIntField(name: string, j: Json): (r: Result<Option<int>, Error>)
    ensures r.Ok? <==> j.JInt? || j.JNull?
    ensures j.JNull? ==> r == Ok(None)
    ensures j.JInt? ==> r == Ok(Some(j.i))
    ensures r.Err? ==> r.error == ValidationError(name)
  {
    match j
    case JNull => Ok(None)
    case JInt(i) => Ok(Some(i))
    case _ => Err(ValidationError(name))
  }

  function OptFloatField(name: string, j: Json): (r: Result<Option<real>, Error>)
    ensures r.Ok? <==> j.JInt? || j.JFloat? || j.JNull?
    ensures j.JNull? ==> r == Ok(None)
    ensures j.JInt? ==> r == Ok(Some(j.i as real))
    ensures j.JFloat? ==> r == Ok(Some(j.r))
    ensures r.Err? ==> r.error == ValidationError(name)
  {
    match j
    case JNull => Ok(None)
    case JInt(i) => Ok(Some(i as real))
    case JFloat(x) => Ok(Some(x))
    case _ => Err(ValidationError(name))
  }
}
