/** JSON values as Python compares them.  True and false are the numbers 1 and 0. */
module JsonValues {
  import opened Options
  import opened Ordering

  datatype Json = Null | Number(n: real) | Word(s: string) | Items(items: seq<Json>) | Object(fields: map<string, Json>)

  predicate Truthy(v: Json) {
    match v
    case Null => false
    case Number(n) => n != 0.0
    case Word(s) => s != ""
    case Items(items) => items != []
    case Object(fields) => fields != map[]
  }

  /** `v or ""`. */
  function OrEmpty(v: Json): Json {
    if Truthy(v) then v else Word("")
  }

  /** Exactly these values count as false, and as no stamp. */
  lemma FalseValues(v: Json)
    ensures !Truthy(v) <==> v == Null || v == Number(0.0) || v == Word("") || v == Items([]) || v == Object(map[])
    ensures OrEmpty(v) ==
            if v == Null || v == Number(0.0) || v == Items([]) || v == Object(map[]) then Word("") else v
  {}

  /** Can the value be a key?  Lists and objects cannot. */
  predicate Hashable(v: Json) {
    !v.Items? && !v.Object?
  }

  /** `a > b`, or None where Python raises. */
  function Greater(a: Json, b: Json): Option<bool>
    decreases a, 0
  {
    match (a, b)
    case (Number(m), Number(n)) => Some(m > n)
    case (Word(s), Word(t)) => Some(Before(t, s))
    case (Items(s), Items(t)) => GreaterItems(s, t)
    case _ => None
  }

  /** Lists compare at their first difference, and otherwise by length. */
  function GreaterItems(s: seq<Json>, t: seq<Json>): Option<bool>
    decreases s, 1 + |s|
  {
    if s == [] then Some(false)
    else if t == [] then Some(true)
    else if s[0] == t[0] then GreaterItems(s[1..], t[1..])
    else Greater(s[0], t[0])
  }

  /** A value is never greater than itself; only objects cannot even be asked. */
  lemma {:induction false} GreaterItself(a: Json)
    ensures Greater(a, a) == if a.Object? || a.Null? then None else Some(false)
  {
    match a {
      case Word(s) => BeforeTotal(s, s);
      case Items(s) => GreaterItemsItself(s);
      case _ =>
    }
  }

  lemma {:induction false} GreaterItemsItself(s: seq<Json>)
    ensures GreaterItems(s, s) == Some(false)
  {
    if s != [] {
      GreaterItemsItself(s[1..]);
    }
  }

  /** Of two different comparable values exactly one is greater. */
  lemma {:induction false} GreaterOneWay(a: Json, b: Json)
    ensures Greater(a, b) == Some(true) ==> Greater(b, a) == Some(false)
    ensures Greater(a, b) == Some(false) && a != b ==> Greater(b, a) == Some(true)
    decreases a, 0
  {
    match (a, b) {
      case (Word(s), Word(t)) => BeforeTotal(s, t);
      case (Items(s), Items(t)) => GreaterItemsOneWay(s, t);
      case _ =>
    }
  }

  lemma {:induction false} GreaterItemsOneWay(s: seq<Json>, t: seq<Json>)
    ensures GreaterItems(s, t) == Some(true) ==> GreaterItems(t, s) == Some(false)
    ensures GreaterItems(s, t) == Some(false) && s != t ==> GreaterItems(t, s) == Some(true)
    decreases s, 1 + |s|
  {
    if s != [] && t != [] {
      if s[0] == t[0] {
        GreaterItemsOneWay(s[1..], t[1..]);
        assert s == [s[0]] + s[1..] && t == [t[0]] + t[1..];
      } else {
        GreaterOneWay(s[0], t[0]);
      }
    }
  }

  /** What is greater than a value is greater than all that are not. */
  lemma {:induction false} GreaterThrough(x: Json, e: Json, n: Json)
    requires Greater(x, e) == Some(false) && Greater(n, e) == Some(true)
    ensures Greater(n, x) == Some(true)
    decreases x, 0
  {
    match (x, e, n) {
      case (Word(s), Word(t), Word(u)) =>
        BeforeTotal(s, t);
        BeforeTotal(t, u);
        BeforeTotal(s, u);
        BeforeTransitive(s, t, u);
        if s == u { BeforeTotal(s, s); }
      case (Items(s), Items(t), Items(u)) => GreaterItemsThrough(s, t, u);
      case _ =>
    }
  }

  lemma {:induction false} GreaterItemsThrough(x: seq<Json>, e: seq<Json>, n: seq<Json>)
    requires GreaterItems(x, e) == Some(false) && GreaterItems(n, e) == Some(true)
    ensures GreaterItems(n, x) == Some(true)
    decreases x, 1 + |x|
  {
    if x != [] && e != [] {
      if n[0] == e[0] {
        if x[0] == e[0] {
          GreaterItemsThrough(x[1..], e[1..], n[1..]);
        } else {
          GreaterOneWay(x[0], e[0]);
        }
      } else if x[0] != e[0] {
        GreaterThrough(x[0], e[0], n[0]);
        GreaterItself(n[0]);
      }
    }
  }
}
