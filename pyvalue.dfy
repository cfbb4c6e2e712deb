/** The Python objects the modelled code handles: what json.loads, pickle.load
    and response.json() return, read with Python's truthiness, dict access,
    indexing, iteration, `in` and str(). */
module PyValue {
  import PyText

  datatype Option<+T> = None | Some(value: T)

  /** The exceptions the modelled code raises or lets through. */
  datatype Exception = ValueError | KeyError(key: string) | TypeError

  /** A Python call either returns a value or raises. */
  datatype Outcome<+T> = Returned(value: T) | Raised(error: Exception)

  /** A JSON document as Python objects. An object keeps its members in
      insertion order, as a dict does. */
  datatype Value =
    | Null
    | Bool(b: bool)
    | Num(n: int)
    | Str(s: string)
    | Arr(items: seq<Value>)
    | Obj(members: seq<(string, Value)>)

  type Members = seq<(string, Value)>

  /** `bool(v)`: None, False, 0 and empty strings, lists and dicts are falsy. */
  predicate Truthy(v: Value) {
    match v
    case Null => false
    case Bool(b) => b
    case Num(n) => n != 0
    case Str(s) => s != ""
    case Arr(xs) => xs != []
    case Obj(ms) => ms != []
  }

  /** The falsy values are exactly None, False, 0, "", [] and {}. */
  lemma FalsyValues(v: Value)
    ensures !Truthy(v) <==> v == Null || v == Bool(false) || v == Num(0) || v == Str("") || v == Arr([]) || v == Obj([])
  {
  }

  predicate HasKey(ms: Members, k: string) {
    exists i :: 0 <= i < |ms| && ms[i].0 == k
  }

  /** `d[k]` as an Option: the value of the last binding of k
      (json.loads keeps the last of repeated keys). */
  function GetKey(ms: Members, k: string): (r: Option<Value>)
    ensures r.None? <==> !HasKey(ms, k)
    ensures r.Some? ==> exists i :: 0 <= i < |ms| && ms[i].0 == k && ms[i].1 == r.value
  {
    if ms == [] then None
    else if ms[|ms| - 1].0 == k then Some(ms[|ms| - 1].1)
    else
      var r := GetKey(ms[..|ms| - 1], k);
      assert forall i :: 0 <= i < |ms| - 1 ==> ms[..|ms| - 1][i] == ms[i];
      r
  }

  /** `d.get(k, default)`: `d[k]` when the key is present, the default
      otherwise. */
  function Get(ms: Members, k: string, default: Value): (r: Value)
    ensures HasKey(ms, k) ==> Subscript(Obj(ms), k) == Returned(r)
    ensures !HasKey(ms, k) ==> r == default
  {
    match GetKey(ms, k)
    case Some(v) => v
    case None => default
  }

  /** `v[k]` for a string subscript: a dict without k raises KeyError, and
      lists, strings, numbers, booleans and None raise TypeError. */
  function Subscript(v: Value, k: string): (r: Outcome<Value>)
    ensures r.Returned? <==> v.Obj? && HasKey(v.members, k)
    ensures r.Returned? ==> GetKey(v.members, k) == Some(r.value)
    ensures v.Obj? && !HasKey(v.members, k) ==> r == Raised(KeyError(k))
    ensures !v.Obj? ==> r == Raised(TypeError)
  {
    match v
    case Obj(ms) =>
      (match GetKey(ms, k)
       case Some(x) => Returned(x)
       case None => Raised(KeyError(k)))
    case _ => Raised(TypeError)
  }

  predicate IsSubstring(k: string, s: string) {
    exists i :: 0 <= i <= |s| && k <= s[i..]
  }

  /** `k in v` for a string k: dict keys, list elements, substrings; a
      number, boolean or None raises TypeError. On a dict it holds exactly
      when `v[k]` would not raise. */
  function Contains(v: Value, k: string): (r: Outcome<bool>)
    ensures r.Raised? <==> v.Null? || v.Bool? || v.Num?
    ensures r.Raised? ==> r.error == TypeError
    ensures v.Obj? ==> (r == Returned(true) <==> Subscript(v, k).Returned?)
    ensures v.Arr? ==> (r == Returned(true) <==> exists i :: 0 <= i < |v.items| && v.items[i] == Str(k))
    ensures v.Str? ==> (r == Returned(true) <==> exists i :: 0 <= i <= |v.s| && k <= v.s[i..])
  {
    match v
    case Obj(ms) => Returned(HasKey(ms, k))
    case Arr(xs) => Returned(Str(k) in xs)
    case Str(s) => Returned(IsSubstring(k, s))
    case _ => Raised(TypeError)
  }

  /** `v[0]`: the first list element or first character; None for the
      IndexError, KeyError or TypeError Python raises otherwise. */
  function Index0(v: Value): (r: Option<Value>)
    ensures r.Some? <==> (v.Arr? && v.items != []) || (v.Str? && v.s != "")
    ensures v.Arr? && v.items != [] ==> r == Some(v.items[0])
    ensures v.Str? && v.s != "" ==> r == Some(Str([v.s[0]]))
  {
    match v
    case Arr(xs) => if xs == [] then None else Some(xs[0])
    case Str(s) => if s == "" then None else Some(Str([s[0]]))
    case _ => None
  }

  /** `for x in v`: list elements, one-character strings, or dict keys;
      None when v is not iterable. */
  function Iterate(v: Value): (r: Option<seq<Value>>)
    ensures r.None? <==> v.Null? || v.Bool? || v.Num?
    ensures v.Arr? ==> r == Some(v.items)
    ensures v.Str? ==> |r.value| == |v.s| && forall i :: 0 <= i < |v.s| ==> r.value[i] == Str([v.s[i]])
    ensures v.Obj? ==> |r.value| == |v.members| && forall i :: 0 <= i < |v.members| ==> r.value[i] == Str(v.members[i].0)
  {
    match v
    case Arr(xs) => Some(xs)
    case Str(s) => Some(seq(|s|, i requires 0 <= i < |s| => Str([s[i]])))
    case Obj(ms) => Some(seq(|ms|, i requires 0 <= i < |ms| => Str(ms[i].0)))
    case _ => None
  }

  /** `str(v)`, as an f-string renders an interpolated value: a string is
      rendered as itself, anything else as its repr, so the result is empty
      only for the empty string. */
  function ToStr(v: Value): (r: string)
    ensures v.Str? ==> r == v.s
    ensures !v.Str? ==> r == Repr(v)
    ensures r == "" <==> v == Str("")
  {
    match v
    case Str(s) => s
    case _ => Repr(v)
  }

  /** `repr(v)`; strings inside containers are quoted without escaping. */
  function Repr(v: Value): (r: string)
    ensures r != ""
    ensures v.Str? ==> r == "'" + v.s + "'"
    ensures v.Arr? ==> r[0] == '[' && r[|r| - 1] == ']'
    ensures v.Obj? ==> r[0] == '{' && r[|r| - 1] == '}'
  {
    match v
    case Null => "None"
    case Bool(b) => if b then "True" else "False"
    case Num(n) => PyText.IntToString(n)
    case Str(s) => "'" + s + "'"
    case Arr(xs) => "[" + ReprItems(xs) + "]"
    case Obj(ms) => "{" + ReprMembers(ms) + "}"
  }

  function ReprItems(xs: seq<Value>): string {
    if xs == [] then ""
    else if |xs| == 1 then Repr(xs[0])
    else Repr(xs[0]) + ", " + ReprItems(xs[1..])
  }

  function ReprMembers(ms: Members): string {
    if ms == [] then ""
    else
      var (key, x) := ms[0];
      assert x < ms[0];
      var m := "'" + key + "': " + Repr(x);
      if |ms| == 1 then m else m + ", " + ReprMembers(ms[1..])
  }
}
