/**
 The comparison Python applies to the sort keys of the three version-ordering
 functions: nested tuples of integers and strings. Comparing an integer with a
 string (or either with a tuple) raises TypeError, which is None here.
 */
module PythonOrder {
  import opened Common

  datatype Value = Int(i: int) | Str(s: string) | Tuple(items: Items)

  datatype Items = Nil | Cons(head: Value, tail: Items)

  function Compare(a: Value, b: Value): Option<int> {
    match (a, b)
    case (Int(x), Int(y)) => Some(Sign(x - y))
    case (Str(x), Str(y)) => Some(CompareStrings(x, y))
    case (Tuple(x), Tuple(y)) => CompareItems(x, y)
    case _ => None
  }

  /** Tuples are decided at the first position whose items differ, then by length. */
  function CompareItems(x: Items, y: Items): Option<int> {
    match (x, y)
    case (Nil, Nil) => Some(0)
    case (Nil, Cons(_, _)) => Some(-1)
    case (Cons(_, _), Nil) => Some(1)
    case (Cons(a, x'), Cons(b, y')) => if a == b then CompareItems(x', y') else Compare(a, b)
  }

  function Tuple1(a: Value): Value { Tuple(Cons(a, Nil)) }

  function Tuple2(a: Value, b: Value): Value { Tuple(Cons(a, Cons(b, Nil))) }

  function Tuple3(a: Value, b: Value, c: Value): Value { Tuple(Cons(a, Cons(b, Cons(c, Nil)))) }

  function Tuple4(a: Value, b: Value, c: Value, d: Value): Value {
    Tuple(Cons(a, Cons(b, Cons(c, Cons(d, Nil)))))
  }

  /** Three items in front of anything: the first difference among them decides. */
  lemma ThreeThen(a: Value, b: Value, c: Value, x: Items, a': Value, b': Value, c': Value, x': Items)
    ensures CompareItems(Cons(a, Cons(b, Cons(c, x))), Cons(a', Cons(b', Cons(c', x')))) ==
            if a != a' then Compare(a, a') else if b != b' then Compare(b, b')
            else if c != c' then Compare(c, c') else CompareItems(x, x')
  {
    assert CompareItems(Cons(b, Cons(c, x)), Cons(b', Cons(c', x'))) ==
           if b != b' then Compare(b, b') else CompareItems(Cons(c, x), Cons(c', x'));
  }
}
