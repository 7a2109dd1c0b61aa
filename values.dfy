/** The JSON-like document tree every parser produces and every rule walks,
    with the few Python operations the rules apply to it (`d.get(k, default)`,
    `x in c`, `c[k]`, `d.items()`, iteration, truthiness, `str()`).
    Operations Python would reject with an exception return `Err` carrying
    the text CPython puts in the exception. */
module Values {

  datatype Option<T> = None | Some(value: T) {
    function GetOr(default: T): T {
      match this
      case Some(v) => v
      case None => default
    }
  }

  datatype Result<T> = Ok(value: T) | Err(error: string) {
    predicate IsFailure() { Err? }
    function PropagateFailure<U>(): Result<U> requires Err? { Err(error) }
    function Extract(): T requires Ok? { value }
  }

  /** A decoded JSON/YAML/HCL value. Objects keep their key order, as Python
      dicts do; keys are strings. */
  datatype Value =
    | Null
    | Bool(b: bool)
    | Int(i: int)
    | Str(s: string)
    | List(items: seq<Value>)
    | Obj(fields: seq<Field>)

  datatype Field = Field(key: string, val: Value)

  const EmptyObj: Value := Obj([])

  /** Python's name for the type of a value, as it appears in error texts. */
  function TypeName(v: Value): string {
    match v
    case Null => "NoneType"
    case Bool(_) => "bool"
    case Int(_) => "int"
    case Str(_) => "str"
    case List(_) => "list"
    case Obj(_) => "dict"
  }

  /** Python truthiness: None, False, 0 and empty containers are false. */
  predicate Truthy(v: Value) {
    match v
    case Null => false
    case Bool(b) => b
    case Int(i) => i != 0
    case Str(s) => s != []
    case List(items) => items != []
    case Obj(fields) => fields != []
  }

  function Keys(fields: seq<Field>): (ks: seq<string>)
    ensures |ks| == |fields|
    ensures forall i :: 0 <= i < |fields| ==> ks[i] == fields[i].key
  {
    if fields == [] then [] else [fields[0].key] + Keys(fields[1..])
  }

  predicate HasKey(fields: seq<Field>, key: string) {
    exists i :: 0 <= i < |fields| && fields[i].key == key
  }

  /** The value bound to `key` (the first binding; a decoded dict has one). */
  function Lookup(fields: seq<Field>, key: string): (r: Option<Value>)
    ensures r.Some? <==> HasKey(fields, key)
    ensures r.Some? ==> exists i :: 0 <= i < |fields| && fields[i] == Field(key, r.value)
  {
    if fields == [] then None
    else if fields[0].key == key then Some(fields[0].val)
    else
      var r := Lookup(fields[1..], key);
      assert forall i :: 1 <= i < |fields| ==> fields[i] == fields[1..][i - 1];
      r
  }

  /** `v.get(key, default)`. */
  function Get(v: Value, key: string, default: Value): (r: Result<Value>)
    ensures r.Ok? <==> v.Obj?
    ensures v.Obj? ==> r == Ok(Lookup(v.fields, key).GetOr(default))
    ensures v.Obj? && !HasKey(v.fields, key) ==> r == Ok(default)
    ensures v.Obj? && HasKey(v.fields, key) ==> r.Ok? && Field(key, r.value) in v.fields
  {
    match v
    case Obj(fields) => Ok(Lookup(fields, key).GetOr(default))
    case _ => Err("'" + TypeName(v) + "' object has no attribute 'get'")
  }

  /** `r` is what `.get(key, {})` gives on a dict with `fields`: the
      key's own value when present, `{}` when absent. */
  predicate ReadsSection(r: Result<Value>, fields: seq<Field>, key: string) {
    r.Ok? && (HasKey(fields, key) ==> Field(key, r.value) in fields) && (!HasKey(fields, key) ==> r.value == EmptyObj)
  }

  /** `d.items()`. */
  function Items(v: Value): (r: Result<seq<Field>>)
    ensures r.Ok? <==> v.Obj?
    ensures v.Obj? ==> r.value == v.fields
  {
    match v
    case Obj(fields) => Ok(fields)
    case _ => Err("'" + TypeName(v) + "' object has no attribute 'items'")
  }

  predicate IsPrefix(pre: string, s: string) {
    |pre| <= |s| && s[..|pre|] == pre
  }

  /** Python's `sub in s` for two strings. */
  predicate IsSubstring(sub: string, s: string)
    decreases |s|
  {
    IsPrefix(sub, s) || (|s| > 0 && IsSubstring(sub, s[1..]))
  }

  /** Any string occurs in every string built around it. */
  lemma {:induction false} SubstringOfConcat(a: string, b: string, c: string)
    ensures IsSubstring(b, a + b + c)
    decreases |a|
  {
    if a == [] {
      assert (a + b + c)[..|b|] == b;
    } else {
      SubstringOfConcat(a[1..], b, c);
      assert (a + b + c)[1..] == a[1..] + b + c;
    }
  }

  /** `item in container` for a string `item`: key membership for a dict,
      element equality for a list, substring test for a string. */
  function Contains(container: Value, item: string): (r: Result<bool>)
    ensures r.Ok? <==> (container.Obj? || container.List? || container.Str?)
    ensures container.Obj? ==> r == Ok(HasKey(container.fields, item))
    ensures container.List? ==> r == Ok(Str(item) in container.items)
    ensures container.Str? ==> r == Ok(IsSubstring(item, container.s))
  {
    match container
    case Obj(fields) => Ok(HasKey(fields, item))
    case List(items) => Ok(Str(item) in items)
    case Str(s) => Ok(IsSubstring(item, s))
    case _ => Err("argument of type '" + TypeName(container) + "' is not iterable")
  }

  /** `container[key]` for a string key. */
  function Index(container: Value, key: string): (r: Result<Value>)
    ensures r.Ok? <==> container.Obj? && HasKey(container.fields, key)
    ensures r.Ok? ==> r.value == Lookup(container.fields, key).value
    ensures r.Ok? ==> Field(key, r.value) in container.fields
  {
    match container
    case Obj(fields) =>
      var found := Lookup(fields, key);
      if found.Some? then Ok(found.value) else Err("'" + key + "'")
    case List(_) => Err("list indices must be integers or slices, not str")
    case Str(_) => Err("string indices must be integers, not 'str'")
    case _ => Err("'" + TypeName(container) + "' object is not subscriptable")
  }

  /** What `for x in v` visits: list elements, dict keys, or the characters
      of a string, each as a one-character string. */
  function Iter(v: Value): (r: Result<seq<Value>>)
    ensures r.Ok? <==> (v.List? || v.Obj? || v.Str?)
    ensures v.List? ==> r == Ok(v.items)
    ensures v.Obj? ==> |r.value| == |v.fields| && forall i :: 0 <= i < |v.fields| ==> r.value[i] == Str(v.fields[i].key)
    ensures v.Str? ==> |r.value| == |v.s| && forall i :: 0 <= i < |v.s| ==> r.value[i] == Str([v.s[i]])
  {
    match v
    case List(items) => Ok(items)
    case Obj(fields) => Ok(seq(|fields|, i requires 0 <= i < |fields| => Str(fields[i].key)))
    case Str(s) => Ok(seq(|s|, i requires 0 <= i < |s| => Str([s[i]])))
    case _ => Err("'" + TypeName(v) + "' object is not iterable")
  }

  /** `str.lower()` on ASCII letters. */
  function Lower(s: string): (r: string)
    ensures |r| == |s|
    ensures forall i :: 0 <= i < |s| ==> r[i] == LowerChar(s[i])
  {
    seq(|s|, i requires 0 <= i < |s| => LowerChar(s[i]))
  }

  function LowerChar(c: char): char {
    if 'A' <= c <= 'Z' then (c as int + 32) as char else c
  }

  /** `str.upper()` on ASCII letters. */
  function Upper(s: string): (r: string)
    ensures |r| == |s|
    ensures forall i :: 0 <= i < |s| ==> r[i] == UpperChar(s[i])
  {
    seq(|s|, i requires 0 <= i < |s| => UpperChar(s[i]))
  }

  function UpperChar(c: char): char {
    if 'a' <= c <= 'z' then (c as int - 32) as char else c
  }

  /** `v.lower()`, which only strings have. */
  function LowerOf(v: Value): (r: Result<string>)
    ensures r.Ok? <==> v.Str?
    ensures v.Str? ==> r.value == Lower(v.s)
  {
    match v
    case Str(s) => Ok(Lower(s))
    case _ => Err("'" + TypeName(v) + "' object has no attribute 'lower'")
  }

  function DigitChar(d: nat): char
    requires d < 10
  {
    ('0' as int + d) as char
  }

  function DigitValue(c: char): nat {
    if '0' <= c <= '9' then c as int - '0' as int else 0
  }

  /** Decimal digits of a natural number, as `str(n)` writes them. */
  function NatToString(n: nat): (r: string)
    ensures |r| >= 1
    ensures forall i :: 0 <= i < |r| ==> '0' <= r[i] <= '9'
    decreases n
  {
    if n < 10 then [DigitChar(n)] else NatToString(n / 10) + [DigitChar(n % 10)]
  }

  /** Reads decimal digits back; the inverse of NatToString. */
  function ParseDigits(s: string): nat
    decreases |s|
  {
    if s == [] then 0 else ParseDigits(s[..|s| - 1]) * 10 + DigitValue(s[|s| - 1])
  }

  lemma {:induction false} ParseNatToString(n: nat)
    ensures ParseDigits(NatToString(n)) == n
    decreases n
  {
    var s := NatToString(n);
    if n < 10 {
      assert s[..|s| - 1] == [];
    } else {
      ParseNatToString(n / 10);
      assert s[..|s| - 1] == NatToString(n / 10);
      assert DigitValue(s[|s| - 1]) == n % 10;
      assert (n / 10) * 10 + n % 10 == n;
    }
  }

  /** Distinct numbers have distinct decimal forms. */
  lemma NatToStringInjective(m: nat, n: nat)
    requires NatToString(m) == NatToString(n)
    ensures m == n
  {
    ParseNatToString(m);
    ParseNatToString(n);
  }

  /** `str(i)` for an integer. */
  function IntToString(i: int): string {
    if i < 0 then "-" + NatToString(-i) else NatToString(i)
  }

  function JoinWith(parts: seq<string>, sep: string): string {
    if parts == [] then ""
    else if |parts| == 1 then parts[0]
    else parts[0] + sep + JoinWith(parts[1..], sep)
  }

  /** `repr(v)`: strings are quoted (escapes inside them are not reproduced). */
  function Repr(v: Value): string
    decreases v, 1
  {
    match v
    case Str(s) => "'" + s + "'"
    case _ => Display(v)
  }

  /** `str(v)`, as an f-string renders a value. */
  function Display(v: Value): string
    decreases v, 0
  {
    match v
    case Null => "None"
    case Bool(b) => if b then "True" else "False"
    case Int(i) => IntToString(i)
    case Str(s) => s
    case List(items) =>
      "[" + JoinWith(seq(|items|, k requires 0 <= k < |items| => Repr(items[k])), ", ") + "]"
    case Obj(fields) =>
      "{" + JoinWith(seq(|fields|, k requires 0 <= k < |fields| =>
                       "'" + fields[k].key + "': " + Repr(fields[k].val)), ", ") + "}"
  }

  /** An optional string rendered by an f-string: `None` when absent. */
  function DisplayOpt(s: Option<string>): string {
    match s
    case Some(t) => t
    case None => "None"
  }
}
