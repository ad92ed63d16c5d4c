/** Shared vocabulary of the back office model: identifiers, optional values,
    typed errors in place of HTTP error responses, and folds over sequences
    that the controllers use for their sums and counts. */
module Common {

  /** Database identifiers (Mongo ObjectIds) are abstracted to naturals. */
  type Id = nat

  datatype Option<+T> = None | Some(value: T) {
    function GetOr(default: T): T {
      match this
      case Some(v) => v
      case None => default
    }
  }

  /** The kinds of failure a controller reports to its caller. */
  datatype Error =
    | NotFound(entity: string)
    | InvalidInput(message: string)
    | Conflict(message: string)
    | SerialNotAvailable(serialNo: Option<string>)
    | InsufficientStock(itemName: string, available: int)
    | LimitExceeded(amount: int, totalDue: int)
    | DuplicateSerials(serials: seq<string>)
    | SerialsExist(serials: seq<string>)
    | CannotDelete(billCount: nat)
    | Internal(message: string)

  datatype Result<+T> = Ok(value: T) | Err(error: Error)

  /** JavaScript's `x || d` for an optional number: a missing or zero value
      falls back to the default. */
  function OrDefault(x: Option<int>, d: int): (r: int)
    ensures x.Some? && x.value != 0 ==> r == x.value
    ensures x.None? || x.value == 0 ==> r == d
  {
    if x.Some? && x.value != 0 then x.value else d
  }

  /** JavaScript truthiness of an optional string: present and non-empty. */
  predicate Truthy(s: Option<string>) {
    s.Some? && s.value != ""
  }

  /** JavaScript's `s || d` for an optional string. */
  function TextOr(s: Option<string>, d: string): (r: string)
    ensures Truthy(s) ==> r == s.value
    ensures !Truthy(s) ==> r == d
  {
    if Truthy(s) then s.value else d
  }

  function Min(a: int, b: int): (r: int)
    ensures r <= a && r <= b
    ensures r == a || r == b
  {
    if a <= b then a else b
  }

  function Max0(x: int): (r: int)
    ensures r >= 0 && r >= x
    ensures r == x || r == 0
  {
    if x >= 0 then x else 0
  }

  // ---------------------------------------------------------------- folds

  /** `xs.reduce((sum, x) => sum + f(x), 0)`. */
  function SumOf<T>(s: seq<T>, f: T -> int): int {
    if |s| == 0 then 0 else f(s[0]) + SumOf(s[1..], f)
  }

  lemma {:induction false} SumOfAppend<T>(a: seq<T>, b: seq<T>, f: T -> int)
    ensures SumOf(a + b, f) == SumOf(a, f) + SumOf(b, f)
  {
    if |a| == 0 {
      assert a + b == b;
    } else {
      assert (a + b)[1..] == a[1..] + b;
      SumOfAppend(a[1..], b, f);
    }
  }

  /** Replacing one element changes the sum by the difference of the two values. */
  lemma {:induction false} SumOfUpdate<T>(s: seq<T>, i: nat, v: T, f: T -> int)
    requires i < |s|
    ensures SumOf(s[i := v], f) == SumOf(s, f) - f(s[i]) + f(v)
  {
    if i == 0 {
      assert s[i := v][1..] == s[1..];
    } else {
      assert s[i := v][1..] == s[1..][i - 1 := v];
      SumOfUpdate(s[1..], i - 1, v, f);
    }
  }

  lemma {:induction false} SumOfNonNegative<T>(s: seq<T>, f: T -> int)
    requires forall i :: 0 <= i < |s| ==> f(s[i]) >= 0
    ensures SumOf(s, f) >= 0
  {
    if |s| > 0 {
      SumOfNonNegative(s[1..], f);
    }
  }

  /** `xs.filter(p)`, order preserved. */
  function Filter<T>(s: seq<T>, p: T -> bool): (r: seq<T>)
    ensures |r| <= |s|
    ensures forall i :: 0 <= i < |r| ==> r[i] in s && p(r[i])
    ensures forall i :: 0 <= i < |s| && p(s[i]) ==> s[i] in r
  {
    if |s| == 0 then []
    else if p(s[0]) then [s[0]] + Filter(s[1..], p)
    else Filter(s[1..], p)
  }

  lemma {:induction false} FilterAppend<T>(a: seq<T>, b: seq<T>, p: T -> bool)
    ensures Filter(a + b, p) == Filter(a, p) + Filter(b, p)
  {
    if |a| == 0 {
      assert a + b == b;
    } else {
      assert (a + b)[1..] == a[1..] + b;
      FilterAppend(a[1..], b, p);
    }
  }

  /** A sum of pointwise sums is the sum of the sums. */
  lemma {:induction false} SumOfAdd<T>(s: seq<T>, f: T -> int, g: T -> int, h: T -> int)
    requires forall i :: 0 <= i < |s| ==> f(s[i]) == g(s[i]) + h(s[i])
    ensures SumOf(s, f) == SumOf(s, g) + SumOf(s, h)
  {
    if |s| > 0 {
      SumOfAdd(s[1..], f, g, h);
    }
  }

  /** Reordering does not change a sum. */
  lemma {:induction false} SumOfPermutation<T>(a: seq<T>, b: seq<T>, f: T -> int)
    requires multiset(a) == multiset(b)
    ensures SumOf(a, f) == SumOf(b, f)
    decreases |a|
  {
    if |a| > 0 {
      assert a[0] in multiset(b);
      var i :| 0 <= i < |b| && b[i] == a[0];
      var rest := b[..i] + b[i + 1..];
      MultisetWithout(b, i);
      assert a == [a[0]] + a[1..];
      assert multiset(a[1..]) == multiset(a) - multiset{a[0]};
      SumOfWithout(b, i, f);
      SumOfPermutation(a[1..], rest, f);
    } else {
      assert |b| == |multiset(b)|;
    }
  }

  lemma MultisetWithout<T>(b: seq<T>, i: nat)
    requires i < |b|
    ensures multiset(b[..i] + b[i + 1..]) == multiset(b) - multiset{b[i]}
  {
    assert b == b[..i] + ([b[i]] + b[i + 1..]);
  }

  lemma SumOfWithout<T>(b: seq<T>, i: nat, f: T -> int)
    requires i < |b|
    ensures SumOf(b, f) == f(b[i]) + SumOf(b[..i] + b[i + 1..], f)
  {
    assert b == b[..i] + ([b[i]] + b[i + 1..]);
    SumOfAppend(b[..i], [b[i]] + b[i + 1..], f);
    SumOfAppend(b[..i], b[i + 1..], f);
    assert ([b[i]] + b[i + 1..])[1..] == b[i + 1..];
  }

  /** A sum splits into the sum over the elements meeting `p` and the sum over the rest. */
  lemma {:induction false} SumOfPartition<T>(s: seq<T>, p: T -> bool, f: T -> int)
    ensures SumOf(s, f) == SumOf(Filter(s, p), f) + SumOf(Filter(s, x => !p(x)), f)
  {
    if |s| > 0 {
      SumOfPartition(s[1..], p, f);
    }
  }

  /** `xs.filter(p).length`. */
  function Count<T>(s: seq<T>, p: T -> bool): (n: nat)
    ensures n <= |s|
    ensures n == |Filter(s, p)|
    ensures n == 0 <==> forall i :: 0 <= i < |s| ==> !p(s[i])
  {
    if |s| == 0 then 0
    else (if p(s[0]) then 1 else 0) + Count(s[1..], p)
  }

  lemma CountAppend<T>(a: seq<T>, b: seq<T>, p: T -> bool)
    ensures Count(a + b, p) == Count(a, p) + Count(b, p)
  {
    FilterAppend(a, b, p);
  }

  /** Replacing one element moves the count by what the two elements add. */
  lemma {:induction false} CountUpdate<T>(s: seq<T>, k: nat, e: T, p: T -> bool)
    requires k < |s|
    ensures Count(s[k := e], p) + (if p(s[k]) then 1 else 0) == Count(s, p) + (if p(e) then 1 else 0)
  {
    var t := s[k := e];
    assert Count(t, p) == (if p(t[0]) then 1 else 0) + Count(t[1..], p);
    if k == 0 {
      assert t[1..] == s[1..];
    } else {
      assert t[1..] == s[1..][k - 1 := e];
      CountUpdate(s[1..], k - 1, e, p);
    }
  }

  /** `xs.findIndex(p)`: the first index whose element meets `p`. */
  function FindIndex<T>(s: seq<T>, p: T -> bool): (r: Option<nat>)
    ensures r.Some? ==> r.value < |s| && p(s[r.value])
    ensures r.Some? ==> forall j :: 0 <= j < r.value ==> !p(s[j])
    ensures r.None? <==> forall j :: 0 <= j < |s| ==> !p(s[j])
  {
    if |s| == 0 then None
    else if p(s[0]) then Some(0)
    else match FindIndex(s[1..], p)
      case None => None
      case Some(k) => Some(k + 1)
  }

  /** `xs.map(f)`. */
  function Map<T, U>(s: seq<T>, f: T -> U): (r: seq<U>)
    ensures |r| == |s|
    ensures forall i :: 0 <= i < |s| ==> r[i] == f(s[i])
  {
    if |s| == 0 then [] else [f(s[0])] + Map(s[1..], f)
  }

  /** Mapping distributes over concatenation. */
  lemma {:induction false} MapAppend<T, U>(a: seq<T>, b: seq<T>, f: T -> U)
    ensures Map(a + b, f) == Map(a, f) + Map(b, f)
  {
    var l, r := Map(a + b, f), Map(a, f) + Map(b, f);
    forall k | 0 <= k < |l|
      ensures l[k] == r[k]
    {
      if k < |a| {
        assert (a + b)[k] == a[k];
      } else {
        assert (a + b)[k] == b[k - |a|];
      }
    }
    assert l == r;
  }

  /** No element occurs twice. */
  predicate Distinct<T(==)>(s: seq<T>) {
    forall i, j :: 0 <= i < j < |s| ==> s[i] != s[j]
  }

  /** An identifier larger than every identifier in use, standing for the
      fresh ObjectId the database assigns to a new document. */
  function FreshId(ids: seq<Id>): (r: Id)
    ensures forall i :: 0 <= i < |ids| ==> ids[i] < r
  {
    if |ids| == 0 then 0
    else
      var rest := FreshId(ids[1..]);
      if ids[0] < rest then rest else ids[0] + 1
  }

  // --------------------------------------------------------- fail-fast loops

  function OptionSeq<T>(x: Option<T>): (r: seq<T>)
    ensures |r| == if x.Some? then 1 else 0
  {
    match x
    case None => []
    case Some(v) => [v]
  }

  /** A `for ... of` loop whose body may return early with an error: each
      step updates the state and may emit an output. On the first error
      the loop stops, and the state reached so far is kept (the steps'
      saves are not rolled back). */
  function FoldSteps<S, L, O>(step: (S, L) -> Result<(S, Option<O>)>, s: S, ls: seq<L>)
    : (r: (S, Result<seq<O>>))
    ensures r.1.Ok? ==> |r.1.value| <= |ls|
    decreases |ls|
  {
    if |ls| == 0 then (s, Ok([]))
    else
      var st := step(s, ls[0]);
      if st.Err? then (s, Err(st.error))
      else
        var next := FoldSteps(step, st.value.0, ls[1..]);
        if next.1.Err? then next else (next.0, Ok(OptionSeq(st.value.1) + next.1.value))
  }

  /** Running the loop over `a + b` runs it over `a` and then over `b`
      from the state `a` left behind; the outputs are concatenated and an
      error of the second part is the error of the whole. */
  lemma {:induction false} FoldStepsAppend<S, L, O>(step: (S, L) -> Result<(S, Option<O>)>, s: S,
                                                    a: seq<L>, b: seq<L>)
    requires FoldSteps(step, s, a).1.Ok?
    ensures var ra := FoldSteps(step, s, a);
            var rb := FoldSteps(step, ra.0, b);
            FoldSteps(step, s, a + b)
            == (rb.0, if rb.1.Ok? then Ok(ra.1.value + rb.1.value) else rb.1)
    decreases |a|
  {
    if |a| == 0 {
      assert a + b == b;
      var rb := FoldSteps(step, s, b);
      if rb.1.Ok? {
        assert [] + rb.1.value == rb.1.value;
      }
    } else {
      var st := step(s, a[0]);
      assert (a + b)[0] == a[0];
      assert (a + b)[1..] == a[1..] + b;
      var ra' := FoldSteps(step, st.value.0, a[1..]);
      assert FoldSteps(step, s, a) == (ra'.0, Ok(OptionSeq(st.value.1) + ra'.1.value));
      FoldStepsAppend(step, st.value.0, a[1..], b);
      var rb := FoldSteps(step, ra'.0, b);
      if rb.1.Ok? {
        assert OptionSeq(st.value.1) + (ra'.1.value + rb.1.value)
            == (OptionSeq(st.value.1) + ra'.1.value) + rb.1.value;
      }
    }
  }

  /** The loop failed at element `j`: the elements before it all ran,
      reaching the state that is returned, and element `j` failed there
      with the error that is returned. */
  ghost predicate FoldFailsAt<S, L, O>(step: (S, L) -> Result<(S, Option<O>)>, s: S, ls: seq<L>, j: int) {
    var r := FoldSteps(step, s, ls);
    && 0 <= j < |ls|
    && r.1.Err?
    && FoldSteps(step, s, ls[..j]).1.Ok?
    && FoldSteps(step, s, ls[..j]).0 == r.0
    && step(r.0, ls[j]).Err?
    && r.1.error == step(r.0, ls[j]).error
  }

  /** A failed loop failed at some element, with everything before it applied. */
  lemma {:induction false} FoldStepsFailFast<S, L, O>(step: (S, L) -> Result<(S, Option<O>)>, s: S, ls: seq<L>)
    requires FoldSteps(step, s, ls).1.Err?
    ensures exists j :: FoldFailsAt(step, s, ls, j)
    decreases |ls|
  {
    var st := step(s, ls[0]);
    if st.Err? {
      assert ls[..0] == [];
      assert FoldFailsAt(step, s, ls, 0);
    } else {
      FoldStepsFailFast(step, st.value.0, ls[1..]);
      var j :| FoldFailsAt(step, st.value.0, ls[1..], j);
      var pre := ls[..j + 1];
      assert pre[0] == ls[0] && pre[1..] == ls[1..][..j];
      assert ls[j + 1] == ls[1..][j];
      assert FoldFailsAt(step, s, ls, j + 1);
    }
  }
}
