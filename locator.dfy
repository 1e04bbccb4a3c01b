/**
 * Choosing the disclosure document of one day's index (utils.py,
 * edinet_pick_latest_doc): walk the form tiers in priority order and return
 * the newest matching document of the first tier that has a match.
 */
module Locator {
  import opened Common
  import opened Config

  /** One record of a day's document index; a missing field is `None`. */
  datatype DocMeta = DocMeta(
    docId: Option<string>,
    ordinanceCode: Option<string>,
    formCode: Option<string>,
    secCode: Option<string>,
    title: Option<string>,
    submitDateTime: Option<string>,
    periodEnd: Option<string>)

  // ---------- Python string order and substring test ----------

  /** Python's `a < b` on strings: lexicographic by code point, a proper prefix being smaller. */
  predicate StrLt(a: string, b: string)
  {
    if |a| == 0 then |b| > 0
    else if |b| == 0 then false
    else if a[0] != b[0] then a[0] < b[0]
    else StrLt(a[1..], b[1..])
  }

  lemma {:induction false} StrLtIrreflexive(a: string)
    ensures !StrLt(a, a)
  {
    if |a| > 0 {
      StrLtIrreflexive(a[1..]);
    }
  }

  lemma {:induction false} StrLtTransitive(a: string, b: string, c: string)
    requires StrLt(a, b) && StrLt(b, c)
    ensures StrLt(a, c)
  {
    if |a| > 0 && |b| > 0 && |c| > 0 && a[0] == b[0] && b[0] == c[0] {
      StrLtTransitive(a[1..], b[1..], c[1..]);
    }
  }

  lemma {:induction false} StrLtTotal(a: string, b: string)
    ensures a == b || StrLt(a, b) || StrLt(b, a)
  {
    if |a| > 0 && |b| > 0 && a[0] == b[0] {
      StrLtTotal(a[1..], b[1..]);
      if a[1..] == b[1..] {
        assert a == [a[0]] + a[1..] && b == [b[0]] + b[1..];
      }
    }
  }

  lemma StrLtAsymmetric(a: string, b: string)
    requires StrLt(a, b)
    ensures !StrLt(b, a)
  {
    if StrLt(b, a) {
      StrLtTransitive(a, b, a);
      StrLtIrreflexive(a);
    }
  }

  /** Python's `needle in hay` on strings, by scanning start positions. */
  predicate IsSubstring(needle: string, hay: string)
  {
    (|needle| <= |hay| && hay[..|needle|] == needle) || (|hay| > 0 && IsSubstring(needle, hay[1..]))
  }

  /** The scan agrees with the direct definition: `needle` occurs at some position of `hay`. */
  lemma {:induction false} IsSubstringOccurs(needle: string, hay: string)
    ensures IsSubstring(needle, hay) <==> exists i :: OccursAt(needle, hay, i)
  {
    if IsSubstring(needle, hay) {
      if |needle| <= |hay| && hay[..|needle|] == needle {
        assert OccursAt(needle, hay, 0);
      } else {
        IsSubstringOccurs(needle, hay[1..]);
        var i :| OccursAt(needle, hay[1..], i);
        assert hay[i + 1..i + 1 + |needle|] == hay[1..][i..i + |needle|];
        assert OccursAt(needle, hay, i + 1);
      }
    }
    if exists i :: OccursAt(needle, hay, i) {
      var i :| OccursAt(needle, hay, i);
      if i > 0 {
        assert hay[1..][i - 1..i - 1 + |needle|] == hay[i..i + |needle|];
        assert OccursAt(needle, hay[1..], i - 1);
        IsSubstringOccurs(needle, hay[1..]);
      }
    }
  }

  // ---------- Matching and ranking one document ----------

  /** `value or ""` for an optional string field. */
  function OrEmpty(s: Option<string>): string
  {
    if s.Some? then s.value else ""
  }

  /** `match_sec`: with no code every document matches; otherwise equal `secCode` or the code inside the title. */
  predicate MatchesCode(d: DocMeta, code: Option<string>)
  {
    code.None? || code.value == "" || d.secCode == code || IsSubstring(code.value, OrEmpty(d.title))
  }

  /**
   * A document matches a code exactly when there is no code (or an empty
   * one), its `secCode` is the code, or the code occurs somewhere in its
   * title, a missing title reading as empty.
   */
  lemma MatchesCodeSpec(d: DocMeta, code: Option<string>)
    ensures MatchesCode(d, code) <==>
              || code.None? || code.value == "" || d.secCode == code
              || exists i :: OccursAt(code.value, OrEmpty(d.title), i)
  {
    if code.Some? {
      IsSubstringOccurs(code.value, OrEmpty(d.title));
    }
  }

  predicate InTier(d: DocMeta, t: FormTier)
  {
    d.ordinanceCode == Some(t.ordinanceCode) && d.formCode == Some(t.formCode)
  }

  predicate Eligible(d: DocMeta, t: FormTier, code: Option<string>)
  {
    InTier(d, t) && MatchesCode(d, code)
  }

  /** The sort key: `submitDateTime`, else `periodEnd`, else `""` (an empty field counts as missing). */
  function SortKey(d: DocMeta): (k: string)
    ensures OrEmpty(d.submitDateTime) != "" ==> k == OrEmpty(d.submitDateTime)
    ensures OrEmpty(d.submitDateTime) == "" ==> k == OrEmpty(d.periodEnd)
  {
    if d.submitDateTime.Some? && d.submitDateTime.value != "" then d.submitDateTime.value
    else if d.periodEnd.Some? && d.periodEnd.value != "" then d.periodEnd.value
    else ""
  }

  // ---------- The selection, as functions ----------

  /** The tier list: the documents of `results` in tier `t` that match, in index order. */
  function Filter(results: seq<DocMeta>, t: FormTier, code: Option<string>): seq<DocMeta>
  {
    if results == [] then []
    else
      var rest := Filter(results[..|results| - 1], t, code);
      var last := results[|results| - 1];
      if Eligible(last, t, code) then rest + [last] else rest
  }

  /**
   * The head of the tier list after a stable sort on the key in descending
   * order: the first document whose key no other document exceeds.
   */
  function NewestOf(docs: seq<DocMeta>): DocMeta
    requires docs != []
  {
    if |docs| == 1 then docs[0]
    else
      var best := NewestOf(docs[..|docs| - 1]);
      var last := docs[|docs| - 1];
      if StrLt(SortKey(best), SortKey(last)) then last else best
  }

  function PickFromTiers(results: seq<DocMeta>, code: Option<string>, tiers: seq<FormTier>): Option<DocMeta>
  {
    if tiers == [] then None
    else
      var tier := Filter(results, tiers[0], code);
      if tier != [] then Some(NewestOf(tier)) else PickFromTiers(results, code, tiers[1..])
  }

  /** What edinet_pick_latest_doc returns for one day's index. */
  function PickLatest(results: seq<DocMeta>, code: Option<string>): Option<DocMeta>
  {
    PickFromTiers(results, code, EdinetForms)
  }

  // ---------- What the selection means ----------

  /**
   * `results[i]` is the document chosen within tier `t`: it matches, no
   * matching document has a greater key, and every matching document before
   * it has a smaller key (equal keys keep the earlier entry).
   */
  ghost predicate IsFirstNewest(results: seq<DocMeta>, t: FormTier, code: Option<string>, i: int)
  {
    && 0 <= i < |results|
    && Eligible(results[i], t, code)
    && (forall j :: 0 <= j < |results| && Eligible(results[j], t, code) ==>
          !StrLt(SortKey(results[i]), SortKey(results[j])))
    && (forall j :: 0 <= j < i && Eligible(results[j], t, code) ==>
          StrLt(SortKey(results[j]), SortKey(results[i])))
  }

  ghost predicate NoMatchIn(results: seq<DocMeta>, t: FormTier, code: Option<string>)
  {
    forall j :: 0 <= j < |results| ==> !Eligible(results[j], t, code)
  }

  lemma {:induction false} FilterEmpty(results: seq<DocMeta>, t: FormTier, code: Option<string>)
    ensures Filter(results, t, code) == [] <==> NoMatchIn(results, t, code)
  {
    if results != [] {
      var init := results[..|results| - 1];
      FilterEmpty(init, t, code);
      if !Eligible(results[|results| - 1], t, code) && NoMatchIn(init, t, code) {
        forall j | 0 <= j < |results|
          ensures !Eligible(results[j], t, code)
        {
          if j < |results| - 1 {
            assert results[j] == init[j];
          }
        }
      }
    }
  }

  /** The head of the sorted tier list is the first newest matching document of `results`. */
  lemma {:induction false} NewestOfFilter(results: seq<DocMeta>, t: FormTier, code: Option<string>) returns (i: nat)
    requires Filter(results, t, code) != []
    ensures IsFirstNewest(results, t, code, i)
    ensures NewestOf(Filter(results, t, code)) == results[i]
  {
    var n := |results| - 1;
    var init := results[..n];
    var last := results[n];
    var rest := Filter(init, t, code);
    if !Eligible(last, t, code) {
      i := NewestOfFilter(init, t, code);
      IneligibleLastIgnored(results, t, code, i);
    } else if rest == [] {
      FilterEmpty(init, t, code);
      assert Filter(results, t, code) == [last];
      i := n;
      OnlyLastMatches(results, t, code);
    } else {
      var k := NewestOfFilter(init, t, code);
      var tier := rest + [last];
      assert tier[..|tier| - 1] == rest;
      if StrLt(SortKey(results[k]), SortKey(last)) {
        i := n;
        NewerLastWins(results, t, code, k);
      } else {
        i := k;
        OlderLastLoses(results, t, code, k);
      }
    }
  }

  /** A last document that does not match leaves the first newest one in place. */
  lemma IneligibleLastIgnored(results: seq<DocMeta>, t: FormTier, code: Option<string>, k: int)
    requires results != [] && !Eligible(results[|results| - 1], t, code)
    requires IsFirstNewest(results[..|results| - 1], t, code, k)
    ensures IsFirstNewest(results, t, code, k)
  {
    var n := |results| - 1;
    assert forall j :: 0 <= j < n ==> results[j] == results[..n][j];
  }

  /** When only the last document matches, it is the first newest. */
  lemma OnlyLastMatches(results: seq<DocMeta>, t: FormTier, code: Option<string>)
    requires results != [] && Eligible(results[|results| - 1], t, code)
    requires NoMatchIn(results[..|results| - 1], t, code)
    ensures IsFirstNewest(results, t, code, |results| - 1)
  {
    var n := |results| - 1;
    assert forall j :: 0 <= j < n ==> results[j] == results[..n][j];
    StrLtIrreflexive(SortKey(results[n]));
  }

  /** A matching last document with a greater key than the earlier first newest one becomes the first newest. */
  lemma NewerLastWins(results: seq<DocMeta>, t: FormTier, code: Option<string>, k: int)
    requires results != [] && Eligible(results[|results| - 1], t, code)
    requires IsFirstNewest(results[..|results| - 1], t, code, k)
    requires StrLt(SortKey(results[k]), SortKey(results[|results| - 1]))
    ensures IsFirstNewest(results, t, code, |results| - 1)
  {
    var n := |results| - 1;
    var init := results[..n];
    var last := results[n];
    var best := results[k];
    assert forall j :: 0 <= j < n ==> results[j] == init[j];
    forall j | 0 <= j < |results| && Eligible(results[j], t, code)
      ensures !StrLt(SortKey(last), SortKey(results[j]))
    {
      if j < n {
        assert !StrLt(SortKey(best), SortKey(results[j]));
        StrLtTotal(SortKey(best), SortKey(results[j]));
        if StrLt(SortKey(last), SortKey(results[j])) {
          StrLtTransitive(SortKey(best), SortKey(last), SortKey(results[j]));
        }
      } else {
        StrLtIrreflexive(SortKey(last));
      }
    }
    forall j | 0 <= j < n && Eligible(results[j], t, code)
      ensures StrLt(SortKey(results[j]), SortKey(last))
    {
      StrLtTotal(SortKey(best), SortKey(results[j]));
      if SortKey(results[j]) != SortKey(best) {
        StrLtTransitive(SortKey(results[j]), SortKey(best), SortKey(last));
      }
    }
  }

  /** A matching last document whose key is not greater leaves the earlier first newest one in place. */
  lemma OlderLastLoses(results: seq<DocMeta>, t: FormTier, code: Option<string>, k: int)
    requires results != [] && Eligible(results[|results| - 1], t, code)
    requires IsFirstNewest(results[..|results| - 1], t, code, k)
    requires !StrLt(SortKey(results[k]), SortKey(results[|results| - 1]))
    ensures IsFirstNewest(results, t, code, k)
  {
    var n := |results| - 1;
    var init := results[..n];
    var last := results[n];
    var best := results[k];
    assert forall j :: 0 <= j < n ==> results[j] == init[j];
    StrLtTotal(SortKey(best), SortKey(last));
    if StrLt(SortKey(last), SortKey(best)) {
      StrLtAsymmetric(SortKey(last), SortKey(best));
    } else {
      StrLtIrreflexive(SortKey(best));
    }
  }

  /** At most one index is the first newest: the choice within a tier is determined. */
  lemma FirstNewestUnique(results: seq<DocMeta>, t: FormTier, code: Option<string>, i: int, i': int)
    requires IsFirstNewest(results, t, code, i) && IsFirstNewest(results, t, code, i')
    ensures i == i'
  {
  }

  /** Tier `k` of `tiers` is the first one with a match. */
  ghost predicate FirstTierWithMatch(results: seq<DocMeta>, code: Option<string>, tiers: seq<FormTier>, k: int)
  {
    && 0 <= k < |tiers|
    && !NoMatchIn(results, tiers[k], code)
    && forall k' :: 0 <= k' < k ==> NoMatchIn(results, tiers[k'], code)
  }

  lemma {:induction false} PickFromTiersChoice(results: seq<DocMeta>, code: Option<string>, tiers: seq<FormTier>)
    ensures PickFromTiers(results, code, tiers).None? <==>
            forall k :: 0 <= k < |tiers| ==> NoMatchIn(results, tiers[k], code)
    ensures PickFromTiers(results, code, tiers).Some? ==>
            exists k, i :: FirstTierWithMatch(results, code, tiers, k) && IsFirstNewest(results, tiers[k], code, i) &&
                           PickFromTiers(results, code, tiers).value == results[i]
  {
    if tiers != [] {
      FilterEmpty(results, tiers[0], code);
      if Filter(results, tiers[0], code) != [] {
        var i := NewestOfFilter(results, tiers[0], code);
        assert FirstTierWithMatch(results, code, tiers, 0);
      } else {
        PickFromTiersChoice(results, code, tiers[1..]);
        assert forall k :: 1 <= k < |tiers| ==> tiers[k] == tiers[1..][k - 1];
        if PickFromTiers(results, code, tiers).Some? {
          var k, i :| FirstTierWithMatch(results, code, tiers[1..], k) && IsFirstNewest(results, tiers[1..][k], code, i) &&
                      PickFromTiers(results, code, tiers[1..]).value == results[i];
          assert FirstTierWithMatch(results, code, tiers, k + 1);
        }
        if forall k :: 1 <= k < |tiers| ==> NoMatchIn(results, tiers[k], code) {
          assert forall k :: 0 <= k < |tiers[1..]| ==> NoMatchIn(results, tiers[1..][k], code);
        }
      }
    }
  }

  /**
   * The selection of one day: no document exactly when no tier has a match;
   * otherwise the first newest document of the first tier with a match,
   * whatever the keys of documents in later tiers.
   */
  lemma PickLatestChoice(results: seq<DocMeta>, code: Option<string>)
    ensures PickLatest(results, code).None? <==>
            forall k :: 0 <= k < |EdinetForms| ==> NoMatchIn(results, EdinetForms[k], code)
    ensures PickLatest(results, code).Some? ==>
            exists k, i :: FirstTierWithMatch(results, code, EdinetForms, k) && IsFirstNewest(results, EdinetForms[k], code, i) &&
                           PickLatest(results, code).value == results[i]
  {
    PickFromTiersChoice(results, code, EdinetForms);
  }

  // ---------- The selection, as the source runs it ----------

  /** One tier's list: the documents of `results` in tier `t` with the wanted code, in order. */
  method FilterTier(results: seq<DocMeta>, t: FormTier, code: Option<string>) returns (tier: seq<DocMeta>)
    ensures tier == Filter(results, t, code)
  {
    tier := [];
    var j := 0;
    while j < |results|
      invariant 0 <= j <= |results|
      invariant tier == Filter(results[..j], t, code)
    {
      assert results[..j + 1][..j] == results[..j];
      if InTier(results[j], t) && MatchesCode(results[j], code) {
        tier := tier + [results[j]];
      }
      j := j + 1;
    }
    assert results[..|results|] == results;
  }

  /** The head of a tier sorted newest first: one pass that keeps the first maximum. */
  method NewestIn(tier: seq<DocMeta>) returns (best: DocMeta)
    requires tier != []
    ensures best == NewestOf(tier)
  {
    best := tier[0];
    var m := 1;
    while m < |tier|
      invariant 1 <= m <= |tier|
      invariant best == NewestOf(tier[..m])
    {
      assert tier[..m + 1][..m] == tier[..m];
      if StrLt(SortKey(best), SortKey(tier[m])) {
        best := tier[m];
      }
      m := m + 1;
    }
    assert tier[..|tier|] == tier;
  }

  /**
   * edinet_pick_latest_doc: build each tier's list in order and return the
   * head of the first non-empty one after sorting it by key, newest first.
   */
  method PickLatestDoc(results: seq<DocMeta>, code: Option<string>) returns (r: Option<DocMeta>)
    ensures r == PickLatest(results, code)
  {
    var k := 0;
    while k < |EdinetForms|
      invariant 0 <= k <= |EdinetForms|
      invariant PickLatest(results, code) == PickFromTiers(results, code, EdinetForms[k..])
    {
      var tier := FilterTier(results, EdinetForms[k], code);
      assert EdinetForms[k..][1..] == EdinetForms[k + 1..];
      if tier != [] {
        var best := NewestIn(tier);
        return Some(best);
      }
      k := k + 1;
    }
    return None;
  }
}
