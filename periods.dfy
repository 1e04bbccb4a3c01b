/**
 * Choosing the reporting periods (utils.py:163-183): the latest date that any
 * series reports, the latest date strictly before it, and the snapshot of
 * every series at each of the two.
 */
module Periods {
  import opened Common
  import opened Parsing
  import opened Synthesis

  /** What `pick_current_previous` returns: the two snapshots and their dates. */
  datatype Picked = Picked(current: Snapshot, previous: Snapshot, latest: Option<Date>, older: Option<Date>)

  // ---------- Greatest dates ----------

  /** `d` is the greatest date of `ds`. */
  ghost predicate IsMax(d: Date, ds: set<Date>)
  {
    d in ds && forall e :: e in ds ==> e <= d
  }

  /** A non-empty set of dates has a member. */
  lemma SomeDate(ds: set<Date>)
    requires ds != {}
    ensures exists x :: x in ds
  {
    if forall x :: x !in ds {
      assert false;
    }
  }

  /** A non-empty set of dates has a greatest one. */
  lemma {:induction false} MaxExists(ds: set<Date>)
    requires ds != {}
    ensures exists m :: IsMax(m, ds)
    decreases |ds|
  {
    SomeDate(ds);
    var x :| x in ds;
    if ds != {x} {
      MaxExists(ds - {x});
      var m :| IsMax(m, ds - {x});
      MaxAdd(m, ds - {x}, x);
      assert ds - {x} + {x} == ds;
    } else {
      assert IsMax(x, ds);
    }
  }

  /** Adding one date to a set keeps the larger of the old greatest date and the new one. */
  lemma MaxAdd(m: Date, ds: set<Date>, x: Date)
    requires IsMax(m, ds)
    ensures IsMax(if m < x then x else m, ds + {x})
  {
  }

  /** `max(ds)`. */
  ghost function MaxDate(ds: set<Date>): (m: Date)
    requires ds != {}
    ensures IsMax(m, ds)
  {
    MaxExists(ds);
    var m :| IsMax(m, ds);
    m
  }

  /** The greatest date is unique. */
  lemma MaxUnique(a: Date, b: Date, ds: set<Date>)
    requires IsMax(a, ds) && IsMax(b, ds)
    ensures a == b
  {
    assert a <= b && b <= a;
  }

  /** The dates of `ds` strictly before `d`. */
  function Before(ds: set<Date>, d: Date): set<Date>
  {
    set e | e in ds && e < d
  }

  // ---------- Snapshots ----------

  /** `at_date(d)` for a date: every key of the series, with its value at `d` or `None`. */
  function SnapshotAt(s: Series, d: Date): (r: Snapshot)
    ensures r.Keys == s.Keys
    ensures forall k :: k in s ==> (r[k].Some? <==> d in s[k])
    ensures forall k :: k in s && d in s[k] ==> r[k] == Some(s[k][d])
  {
    map k | k in s :: Lookup(s[k], d)
  }

  // ---------- The specification ----------

  /** The date before `latest` that `older` is: the greatest observed date below it, if any. */
  ghost function OlderDate(ds: set<Date>, latest: Date): Option<Date>
  {
    var b := Before(ds, latest);
    if b == {} then None else Some(MaxDate(b))
  }

  /** What `pick_current_previous` returns for the series `s`. */
  ghost function PickedOf(s: Series): Picked
  {
    var ds := AllDates(s);
    if ds == {} then Picked(map[], map[], None, None)
    else
      var latest := MaxDate(ds);
      var older := OlderDate(ds, latest);
      Picked(SnapshotAt(s, latest), if older.Some? then SnapshotAt(s, older.value) else map[], Some(latest), older)
  }

  /**
   * With no observed date everything is empty. Otherwise `latest` is the
   * greatest observed date and the current snapshot holds every key there;
   * `older` is the greatest date strictly before it, so no observed date lies
   * between the two; the previous snapshot is empty exactly when there is no
   * such date.
   */
  lemma PickedSpec(s: Series)
    ensures var p := PickedOf(s);
            p.latest.None? <==> AllDates(s) == {}
    ensures var p := PickedOf(s);
            p.latest.None? ==> p.current == map[] && p.previous == map[] && p.older.None?
    ensures var p := PickedOf(s);
            p.latest.Some? ==> IsMax(p.latest.value, AllDates(s)) && p.current.Keys == s.Keys
    ensures var p := PickedOf(s);
            p.older.Some? ==>
              && p.latest.Some?
              && p.older.value in AllDates(s) && p.older.value < p.latest.value
              && forall d :: d in AllDates(s) && p.older.value < d ==> d == p.latest.value
    ensures var p := PickedOf(s);
            p.latest.Some? ==> (p.older.None? <==> forall d :: d in AllDates(s) ==> d >= p.latest.value)
    ensures var p := PickedOf(s);
            p.previous == map[] <==> p.older.None?
  {
    var p := PickedOf(s);
    var ds := AllDates(s);
    if ds != {} {
      var latest := MaxDate(ds);
      if p.older.Some? {
        var o := p.older.value;
        assert IsMax(o, Before(ds, latest));
        forall d | d in ds && o < d
          ensures d == latest
        {
          assert d !in Before(ds, latest);
        }
        var k :| k in s && o in s[k];
        assert SnapshotAt(s, o).Keys == s.Keys;
        assert k in p.previous;
      } else {
        forall d | d in ds
          ensures d >= latest
        {
          assert d !in Before(ds, latest);
        }
      }
    }
  }

  // ---------- The computation ----------

  /** `for dmap in series.values(): dates |= set(dmap.keys())` (utils.py:165-167). */
  method CollectDates(s: Series) returns (dates: set<Date>)
    ensures dates == AllDates(s)
  {
    dates := {};
    var todo := s.Keys;
    while todo != {}
      invariant todo <= s.Keys
      invariant dates == DatesUnder(s, s.Keys - todo)
      decreases |todo|
    {
      var k :| k in todo;
      DatesUnderAdd(s, s.Keys - todo, k);
      assert s.Keys - (todo - {k}) == (s.Keys - todo) + {k};
      dates := dates + s[k].Keys;
      todo := todo - {k};
    }
    assert s.Keys - todo == s.Keys;
  }

  /** The dates observed under the keys `ks`. */
  ghost function DatesUnder(s: Series, ks: set<string>): set<Date>
  {
    set k, d | k in ks && k in s && d in s[k] :: d
  }

  /** One more key adds the dates of its own series. */
  lemma DatesUnderAdd(s: Series, ks: set<string>, k: string)
    requires k in s
    ensures DatesUnder(s, ks + {k}) == DatesUnder(s, ks) + s[k].Keys
  {
    forall d | d in DatesUnder(s, ks + {k})
      ensures d in DatesUnder(s, ks) + s[k].Keys
    {
      var k' :| k' in ks + {k} && k' in s && d in s[k'];
      if k' != k {
        assert d in DatesUnder(s, ks);
      }
    }
    forall d | d in DatesUnder(s, ks) + s[k].Keys
      ensures d in DatesUnder(s, ks + {k})
    {
      if d in DatesUnder(s, ks) {
        var k' :| k' in ks && k' in s && d in s[k'];
        assert k' in ks + {k};
      }
    }
  }

  /** `max(ds, default=None)`: the greatest date, or `None` for no dates. */
  method MaxOf(ds: set<Date>) returns (m: Option<Date>)
    ensures m.None? <==> ds == {}
    ensures m.Some? ==> IsMax(m.value, ds)
  {
    m := None;
    var todo := ds;
    ghost var seen: set<Date> := {};
    while todo != {}
      invariant seen + todo == ds && seen !! todo
      invariant m.None? <==> seen == {}
      invariant m.Some? ==> IsMax(m.value, seen)
      decreases |todo|
    {
      SomeDate(todo);
      var d :| d in todo;
      if m.None? {
        m := Some(d);
      } else {
        MaxAdd(m.value, seen, d);
        if m.value < d {
          m := Some(d);
        }
      }
      seen := seen + {d};
      todo := todo - {d};
    }
  }

  /** `at_date(d)` (utils.py:173-180): `{}` for `None`, else every key with its value at `d`. */
  method AtDate(s: Series, d: Option<Date>) returns (out: Snapshot)
    ensures d.None? ==> out == map[]
    ensures d.Some? ==> out == SnapshotAt(s, d.value)
  {
    out := map[];
    if d.None? {
      return;
    }
    var todo := s.Keys;
    while todo != {}
      invariant todo <= s.Keys
      invariant out == map k | k in s.Keys - todo :: Lookup(s[k], d.value)
      decreases |todo|
    {
      var k :| k in todo;
      out := out[k := Lookup(s[k], d.value)];
      todo := todo - {k};
    }
  }

  /** `pick_current_previous` (utils.py:163-183). */
  method PickCurrentPrevious(s: Series) returns (r: Picked)
    ensures r == PickedOf(s)
  {
    var dates := CollectDates(s);
    if dates == {} {
      return Picked(map[], map[], None, None);
    }
    var latest := MaxOf(dates);
    var older := MaxOf(Before(dates, latest.value));
    MaxUnique(latest.value, MaxDate(dates), dates);
    if older.Some? {
      MaxUnique(older.value, MaxDate(Before(dates, latest.value)), Before(dates, latest.value));
    }
    var cur := AtDate(s, latest);
    var prev := AtDate(s, older);
    return Picked(cur, prev, latest, older);
  }
}
