/**
 * Values shared by every part of the pipeline: the optional value that stands
 * for Python's `None`, and the truthiness rules of Python's `x or d` on
 * optional numbers.
 */
module Common {

  /** `None` is Python's `None`; `Some(v)` a present value. */
  datatype Option<T> = None | Some(value: T)

  /** `d.get(k)` on a dictionary whose values may be `None`: an absent key reads as `None`. */
  function Get<K, V>(m: map<K, Option<V>>, k: K): Option<V>
  {
    if k in m then m[k] else None
  }

  /** `d.get(k)` on a dictionary of plain values. */
  function Lookup<K, V>(m: map<K, V>, k: K): Option<V>
  {
    if k in m then Some(m[k]) else None
  }

  /** `d.get(k, dflt)` on a dictionary of plain values. */
  function LookupOr<K, V>(m: map<K, V>, k: K, dflt: V): V
  {
    if k in m then m[k] else dflt
  }

  /** A dictionary of figures keyed by concept name, a value possibly `None`. */
  type Snapshot = map<string, Option<real>>

  /** `abs(x)`. */
  function Abs(x: real): (r: real)
    ensures r >= 0.0 && (r == x || r == -x)
  {
    if x < 0.0 then -x else x
  }

  /** Python truthiness of an optional number: `None` and `0.0` are false. */
  predicate Truthy(x: Option<real>)
  {
    x.Some? && x.value != 0.0
  }

  /** `x or d` for an optional number `x` and a plain default `d`. */
  function OrElse(x: Option<real>, d: real): real
  {
    if Truthy(x) then x.value else d
  }

  /** `x or None`: an exact zero becomes `None`. */
  function OrNone(x: Option<real>): Option<real>
  {
    if Truthy(x) then x else None
  }

  /** `needle` occurs in `hay` starting at position `i`. */
  predicate OccursAt<T(==)>(needle: seq<T>, hay: seq<T>, i: int)
  {
    0 <= i && i + |needle| <= |hay| && hay[i..i + |needle|] == needle
  }

  // ---------- Filling a dictionary entry by entry ----------

  /** The values `f` gives for the elements of `xs`, in order, skipping `None`. */
  function FilterMap<T, U>(xs: seq<T>, f: T -> Option<U>): seq<U>
  {
    if xs == [] then []
    else
      var last := f(xs[|xs| - 1]);
      FilterMap(xs[..|xs| - 1], f) + (if last.Some? then [last.value] else [])
  }

  /** Every value kept comes from some element. */
  lemma {:induction false} FilterMapFrom<T, U>(xs: seq<T>, f: T -> Option<U>, y: U) returns (i: int)
    requires y in FilterMap(xs, f)
    ensures 0 <= i < |xs| && f(xs[i]) == Some(y)
  {
    var n := |xs| - 1;
    var last := f(xs[n]);
    if last.Some? && y == last.value {
      i := n;
    } else {
      assert y in FilterMap(xs[..n], f);
      i := FilterMapFrom(xs[..n], f, y);
      assert xs[..n][i] == xs[i];
    }
  }

  /** `for k, v in ws: m[k] = v`: a later write to a key replaces an earlier one. */
  function WriteAll<K, V>(m: map<K, V>, ws: seq<(K, V)>): map<K, V>
  {
    if ws == [] then m else WriteAll(m, ws[..|ws| - 1])[ws[|ws| - 1].0 := ws[|ws| - 1].1]
  }

  /** `xs[i]` gives an entry for key `k`. */
  ghost predicate EntryFor<T, K, V>(xs: seq<T>, f: T -> Option<(K, V)>, k: K, i: int)
  {
    0 <= i < |xs| && f(xs[i]).Some? && f(xs[i]).value.0 == k
  }

  /** `xs[i]` gives the last entry for key `k`. */
  ghost predicate LastEntryFor<T, K, V>(xs: seq<T>, f: T -> Option<(K, V)>, k: K, i: int)
  {
    EntryFor(xs, f, k, i) && forall j :: i < j < |xs| ==> !EntryFor(xs, f, k, j)
  }

  /** One more element: its entry, if any, is written last. */
  lemma WriteAllStep<T, K, V>(m: map<K, V>, xs: seq<T>, f: T -> Option<(K, V)>)
    requires xs != []
    ensures var last := f(xs[|xs| - 1]);
            var before := WriteAll(m, FilterMap(xs[..|xs| - 1], f));
            WriteAll(m, FilterMap(xs, f)) == if last.Some? then before[last.value.0 := last.value.1] else before
  {
    var last := f(xs[|xs| - 1]);
    var ws := FilterMap(xs[..|xs| - 1], f);
    if last.Some? {
      assert (ws + [last.value])[..|ws|] == ws;
    } else {
      assert ws + [] == ws;
    }
  }

  /** Key `k` is present after the writes exactly when it was before or some element writes it. */
  lemma {:induction false} WrittenKeys<T, K, V>(m: map<K, V>, xs: seq<T>, f: T -> Option<(K, V)>, k: K)
    ensures k in WriteAll(m, FilterMap(xs, f)) <==> k in m || exists i :: EntryFor(xs, f, k, i)
  {
    if xs != [] {
      var n := |xs| - 1;
      WriteAllStep(m, xs, f);
      WrittenKeys(m, xs[..n], f, k);
      assert forall i :: EntryFor(xs[..n], f, k, i) <==> 0 <= i < n && EntryFor(xs, f, k, i);
      if exists i :: EntryFor(xs, f, k, i) {
        var i :| EntryFor(xs, f, k, i);
        if i < n {
          assert EntryFor(xs[..n], f, k, i);
        }
      }
      if k in WriteAll(m, FilterMap(xs, f)) && k !in m && !EntryFor(xs, f, k, n) {
        var i :| EntryFor(xs[..n], f, k, i);
        assert EntryFor(xs, f, k, i);
      }
    }
  }

  /** A key no element writes keeps its old value (or stays absent). */
  lemma {:induction false} UnwrittenKeyKept<T, K, V>(m: map<K, V>, xs: seq<T>, f: T -> Option<(K, V)>, k: K)
    requires forall i :: !EntryFor(xs, f, k, i)
    ensures Lookup(WriteAll(m, FilterMap(xs, f)), k) == Lookup(m, k)
  {
    if xs != [] {
      var n := |xs| - 1;
      WriteAllStep(m, xs, f);
      assert forall i :: EntryFor(xs[..n], f, k, i) ==> EntryFor(xs, f, k, i);
      UnwrittenKeyKept(m, xs[..n], f, k);
      assert !EntryFor(xs, f, k, n);
    }
  }

  /** A written key holds the value of the last element that writes it. */
  lemma {:induction false} LastEntryWins<T, K, V>(m: map<K, V>, xs: seq<T>, f: T -> Option<(K, V)>, k: K, i: int)
    requires LastEntryFor(xs, f, k, i)
    ensures k in WriteAll(m, FilterMap(xs, f))
    ensures WriteAll(m, FilterMap(xs, f))[k] == f(xs[i]).value.1
  {
    var n := |xs| - 1;
    WriteAllStep(m, xs, f);
    if i < n {
      assert !EntryFor(xs, f, k, n);
      assert LastEntryFor(xs[..n], f, k, i) by {
        assert xs[..n][i] == xs[i];
        forall j | i < j < n
          ensures !EntryFor(xs[..n], f, k, j)
        {
          assert xs[..n][j] == xs[j];
          assert !EntryFor(xs, f, k, j);
        }
      }
      LastEntryWins(m, xs[..n], f, k, i);
    }
  }

  /** When some element writes `k`, one of them writes it last. */
  lemma {:induction false} LastEntryExists<T, K, V>(xs: seq<T>, f: T -> Option<(K, V)>, k: K, i: int)
    requires EntryFor(xs, f, k, i)
    ensures exists i' :: LastEntryFor(xs, f, k, i')
    decreases |xs| - i
  {
    if !LastEntryFor(xs, f, k, i) {
      var j :| i < j < |xs| && EntryFor(xs, f, k, j);
      LastEntryExists(xs, f, k, j);
    }
  }

  // ---------- The last value a scan keeps ----------

  /** The value `f` gives for the last element of `xs` it gives one for: a scan that keeps overwriting. */
  function LastSome<T, U>(xs: seq<T>, f: T -> Option<U>): Option<U>
  {
    if xs == [] then None
    else
      var v := f(xs[|xs| - 1]);
      if v.Some? then v else LastSome(xs[..|xs| - 1], f)
  }

  /** One more element: its value, if it gives one, replaces what the scan kept. */
  lemma LastSomeStep<T, U>(xs: seq<T>, f: T -> Option<U>, j: int)
    requires 0 <= j < |xs|
    ensures LastSome(xs[..j + 1], f) == if f(xs[j]).Some? then f(xs[j]) else LastSome(xs[..j], f)
  {
    assert xs[..j + 1][..j] == xs[..j];
  }

  /** `f` gives a value for `xs[i]`. */
  ghost predicate GivesAt<T, U>(xs: seq<T>, f: T -> Option<U>, i: int)
  {
    0 <= i < |xs| && f(xs[i]).Some?
  }

  /** `xs[i]` is the last element `f` gives a value for. */
  ghost predicate LastGivesAt<T, U>(xs: seq<T>, f: T -> Option<U>, i: int)
  {
    GivesAt(xs, f, i) && forall j :: i < j < |xs| ==> !GivesAt(xs, f, j)
  }

  /** The scan keeps nothing exactly when no element gives a value, and otherwise keeps the last one's. */
  lemma {:induction false} LastSomeSpec<T, U>(xs: seq<T>, f: T -> Option<U>)
    ensures LastSome(xs, f).None? <==> forall i :: !GivesAt(xs, f, i)
    ensures forall i :: LastGivesAt(xs, f, i) ==> LastSome(xs, f) == f(xs[i])
  {
    if xs != [] {
      var n := |xs| - 1;
      var init := xs[..n];
      LastSomeSpec(init, f);
      assert forall i :: GivesAt(init, f, i) <==> 0 <= i < n && GivesAt(xs, f, i);
      if !GivesAt(xs, f, n) {
        forall i | LastGivesAt(xs, f, i)
          ensures LastSome(xs, f) == f(xs[i])
        {
          assert LastGivesAt(init, f, i);
        }
      } else {
        forall i | LastGivesAt(xs, f, i)
          ensures i == n
        {
        }
      }
    }
  }
}
