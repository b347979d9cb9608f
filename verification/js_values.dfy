/** The fragment of JavaScript's value semantics that the library depends on. */
module Js {
  import opened Outcomes

  /** A JavaScript value, as far as the library inspects one. Numbers are reals;
      `NaN` is kept apart because every comparison with it is false. */
  datatype JsValue =
    | Undefined
    | Null
    | Bool(b: bool)
    | Num(n: real)
    | NaN
    | Str(s: string)
    | Arr(items: seq<JsValue>)
    | Obj(props: map<string, JsValue>)
    | Func
    | Instance(cls: string)   // an object built by the class constructor named `cls`

  /** JavaScript truthiness, the test behind `if (!x)` and `x || y`. */
  predicate Truthy(v: JsValue) {
    match v
    case Undefined => false
    case Null => false
    case Bool(b) => b
    case Num(n) => n != 0.0
    case NaN => false
    case Str(s) => |s| > 0
    case _ => true
  }

  /** `typeof v === 'number'` */
  predicate IsNumber(v: JsValue) {
    v.Num? || v.NaN?
  }

  /** `Math.floor(x / 2)` for an integer `x`. */
  function FloorHalf(x: int): (h: int)
    ensures 2 * h <= x < 2 * h + 2
  {
    x / 2
  }

  /** `Math.ceil(x / 2)` for an integer `x`. */
  function CeilHalf(x: int): (h: int)
    ensures 2 * h - 2 < x <= 2 * h
  {
    (x + 1) / 2
  }

  lemma HalvesAddUp(x: int)
    ensures CeilHalf(x) + FloorHalf(x) == x
    ensures FloorHalf(x) <= CeilHalf(x) <= FloorHalf(x) + 1
  {
  }

  /** `s.substr(start, length)`: a negative `start` counts back from the end,
      and both the start and the length are clamped to the string. */
  function Substr(s: string, start: int, length: int): (r: string)
    ensures |r| <= |s|
    ensures length <= 0 ==> r == ""
    ensures start >= |s| ==> r == ""
    ensures 0 <= start && 0 <= length && start + length <= |s| ==> r == s[start..start + length]
  {
    var from := if start < 0 then (if |s| + start < 0 then 0 else |s| + start)
                else if start > |s| then |s| else start;
    var count := if length < 0 then 0 else if length > |s| - from then |s| - from else length;
    s[from..from + count]
  }

  /** `s.substr(start)`: the length defaults to the rest of the string. */
  function SubstrFrom(s: string, start: int): (r: string)
    ensures start >= |s| ==> r == ""
    ensures 0 <= start <= |s| ==> r == s[start..]
  {
    Substr(s, start, |s|)
  }

  /** Index of the first occurrence of `c` in `s`. */
  function IndexOf(s: string, c: char): (i: nat)
    requires c in s
    ensures i < |s| && s[i] == c
    ensures c !in s[..i]
  {
    if s[0] == c then 0
    else
      var j := IndexOf(s[1..], c);
      assert s[1..][..j] == s[1..j + 1];
      assert s[..j + 1] == [s[0]] + s[1..j + 1];
      j + 1
  }

  /** `s.split(c)` for a one-character separator: the maximal separator-free
      pieces, in order, including empty ones. */
  function Split(s: string, c: char): (parts: seq<string>)
    ensures |parts| >= 1
    ensures forall i :: 0 <= i < |parts| ==> c !in parts[i]
    decreases |s|
  {
    if c !in s then [s]
    else
      var i := IndexOf(s, c);
      [s[..i]] + Split(s[i + 1..], c)
  }

  /** `parts.join(c)` */
  function Join(parts: seq<string>, c: char): string
    requires |parts| >= 1
  {
    if |parts| == 1 then parts[0] else parts[0] + [c] + Join(parts[1..], c)
  }

  /** `parts[i]`, which reads `undefined` past the end. */
  function Part(parts: seq<string>, i: nat): (r: Option<string>)
    ensures r.Some? <==> i < |parts|
    ensures r.Some? ==> r.value == parts[i]
  {
    if i < |parts| then Some(parts[i]) else None
  }

  /** Splitting undoes joining. */
  lemma {:induction false} JoinSplit(s: string, c: char)
    ensures Join(Split(s, c), c) == s
    decreases |s|
  {
    if c in s {
      var i := IndexOf(s, c);
      var rest := Split(s[i + 1..], c);
      var parts := [s[..i]] + rest;
      assert Split(s, c) == parts;
      assert parts[0] == s[..i] && parts[1..] == rest;
      JoinSplit(s[i + 1..], c);
      assert Join(parts, c) == s[..i] + [c] + Join(rest, c);
      assert s == s[..i] + [c] + s[i + 1..];
    }
  }

  /** Splitting a string whose first piece is separator-free peels that piece off. */
  lemma {:induction false} SplitAfterPiece(x: string, y: string, c: char)
    requires c !in x
    ensures Split(x + [c] + y, c) == [x] + Split(y, c)
  {
    var s := x + [c] + y;
    assert s[|x|] == c;
    var i := IndexOf(s, c);
    if i != |x| {
      assert false;
    }
    assert s[..i] == x;
    assert s[i + 1..] == y;
  }

  /** Joining separator-free pieces and splitting again gives the pieces back. */
  lemma {:induction false} SplitJoin(parts: seq<string>, c: char)
    requires |parts| >= 1
    requires forall i :: 0 <= i < |parts| ==> c !in parts[i]
    ensures Split(Join(parts, c), c) == parts
    decreases |parts|
  {
    if |parts| == 1 {
      assert Join(parts, c) == parts[0];
    } else {
      SplitJoin(parts[1..], c);
      SplitAfterPiece(parts[0], Join(parts[1..], c), c);
      assert [parts[0]] + parts[1..] == parts;
    }
  }
}
