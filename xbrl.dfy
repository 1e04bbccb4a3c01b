/**
 * Reading facts out of XBRL instance documents (utils.py:81-161): the local
 * part of an element name, the map from context id to period end date, and
 * the per-concept series of dated values that `parse_xbrl_series` returns.
 * A document is an already-parsed element tree.
 */
module Xbrl {
  import opened Common
  import opened Config
  import opened Parsing
  import opened Synthesis

  /** An element: its (possibly namespaced) tag, the attributes read, its text and its children. */
  datatype Element = Element(
    tag: string,
    id: Option<string>,
    contextRef: Option<string>,
    text: Option<string>,
    children: seq<Element>)

  /** `e.iter()`: the element itself, then its descendants in document order. */
  function Iter(e: Element): (r: seq<Element>)
    ensures |r| >= 1 && r[0] == e
    decreases e
  {
    [e] + IterAll(e.children)
  }

  /** The elements of `es` and all their descendants, in document order. */
  function IterAll(es: seq<Element>): seq<Element>
    decreases es
  {
    if es == [] then [] else IterAll(es[..|es| - 1]) + Iter(es[|es| - 1])
  }

  // ---------- Local names ----------

  /** `s.split(c, 1)[1]`: the text after the first `c`, or `None` when `s` has no `c`. */
  function AfterFirst(s: string, c: char): Option<string>
  {
    if s == [] then None
    else if s[0] == c then Some(s[1..])
    else AfterFirst(s[1..], c)
  }

  /** Splitting at the first `c` of `p + [c] + r`, where `p` has no `c`, leaves `r`. */
  lemma {:induction false} AfterFirstSplit(p: string, c: char, r: string)
    requires c !in p
    ensures AfterFirst(p + [c] + r, c) == Some(r)
  {
    if p != [] {
      assert (p + [c] + r)[1..] == p[1..] + [c] + r;
      AfterFirstSplit(p[1..], c, r);
    } else {
      assert (p + [c] + r)[1..] == r;
    }
  }

  /** Text without `c` has nothing after a `c`. */
  lemma {:induction false} AfterFirstAbsent(s: string, c: char)
    requires c !in s
    ensures AfterFirst(s, c) == None
  {
    if s != [] {
      AfterFirstAbsent(s[1..], c);
    }
  }

  /** The part of `tag` after its first `}`, else after its first `:`, else `tag` itself. */
  function LocalName(tag: string): string
  {
    var afterBrace := AfterFirst(tag, '}');
    if afterBrace.Some? then afterBrace.value
    else
      var afterColon := AfterFirst(tag, ':');
      if afterColon.Some? then afterColon.value else tag
  }

  /** A tag in `{namespace}local` notation yields its local part. */
  lemma LocalNameOfClark(ns: string, local: string)
    requires '}' !in ns
    ensures LocalName("{" + ns + "}" + local) == local
  {
    assert "{" + ns + "}" + local == ("{" + ns) + ['}'] + local;
    AfterFirstSplit("{" + ns, '}', local);
  }

  /** A tag in `prefix:local` notation yields its local part. */
  lemma LocalNameOfPrefixed(prefix: string, local: string)
    requires '}' !in prefix && '}' !in local && ':' !in prefix
    ensures LocalName(prefix + ":" + local) == local
  {
    assert prefix + ":" + local == prefix + [':'] + local;
    AfterFirstAbsent(prefix + ":" + local, '}');
    AfterFirstSplit(prefix, ':', local);
  }

  /** A tag with neither `}` nor `:` is its own local name. */
  lemma LocalNameOfPlain(tag: string)
    requires '}' !in tag && ':' !in tag
    ensures LocalName(tag) == tag
  {
    AfterFirstAbsent(tag, '}');
    AfterFirstAbsent(tag, ':');
  }

  // ---------- Contexts ----------

  /** An `endDate` or `instant` element. */
  predicate IsDateElement(x: Element)
  {
    var ln := LocalName(x.tag);
    ln == "endDate" || ln == "instant"
  }

  /** The date an element gives when it is a date element whose text parses. */
  function DateGiven(x: Element): Option<Date>
  {
    if IsDateElement(x) then DateOfText(x.text) else None
  }

  /** The date of the last element of `nodes` that gives one; an element whose text fails to parse changes nothing. */
  function LastDate(nodes: seq<Element>): Option<Date>
  {
    LastSome(nodes, DateGiven)
  }

  /**
   * The end date of a context is that of its last date element whose text
   * parses, and there is none exactly when no date element parses.
   */
  lemma LastDateSpec(nodes: seq<Element>)
    ensures LastDate(nodes).None? <==> forall i :: !GivesAt(nodes, DateGiven, i)
    ensures forall i :: LastGivesAt(nodes, DateGiven, i) ==> LastDate(nodes) == DateGiven(nodes[i])
  {
    LastSomeSpec(nodes, DateGiven);
  }

  /** The entry a `context` element with a non-empty id contributes, when one of its date elements parses. */
  function ContextEntry(x: Element): Option<(string, Date)>
  {
    if LocalName(x.tag) == "context" && x.id.Some? && x.id.value != "" then
      var d := LastDate(Iter(x));
      if d.Some? then Some((x.id.value, d.value)) else None
    else None
  }

  /** The context map of a document: a later context with the same id replaces an earlier one. */
  function Contexts(root: Element): map<string, Date>
  {
    WriteAll(map[], FilterMap(Iter(root), ContextEntry))
  }

  /**
   * An id is in the context map exactly when some element of the document
   * contributes an entry for it, and it maps to the date of the last such
   * element.
   */
  lemma ContextsSpec(root: Element, id: string)
    ensures id in Contexts(root) ==> exists i :: EntryFor(Iter(root), ContextEntry, id, i)
    ensures (exists i :: EntryFor(Iter(root), ContextEntry, id, i)) ==> id in Contexts(root)
    ensures forall i :: LastEntryFor(Iter(root), ContextEntry, id, i) ==>
              id in Contexts(root) && Contexts(root)[id] == ContextEntry(Iter(root)[i]).value.1
  {
    var xs := Iter(root);
    WrittenKeys(map[], xs, ContextEntry, id);
    if id in Contexts(root) {
      var i :| EntryFor(xs, ContextEntry, id, i);
      assert EntryFor(Iter(root), ContextEntry, id, i);
    }
    forall i | LastEntryFor(Iter(root), ContextEntry, id, i)
      ensures id in Contexts(root) && Contexts(root)[id] == ContextEntry(Iter(root)[i]).value.1
    {
      LastEntryWins(map[], Iter(root), ContextEntry, id, i);
    }
  }

  /** The end date of one context element: its date elements, last parsing one wins. */
  method ContextDate(el: Element) returns (endDate: Option<Date>)
    ensures endDate == LastDate(Iter(el))
  {
    endDate := None;
    var sub := Iter(el);
    var j := 0;
    while j < |sub|
      invariant 0 <= j <= |sub|
      invariant endDate == LastDate(sub[..j])
    {
      LastSomeStep(sub, DateGiven, j);
      var child := sub[j];
      var ln := LocalName(child.tag);
      if ln == "endDate" || ln == "instant" {
        var parsed := DateOfText(child.text);
        if parsed.Some? {
          endDate := parsed;
        }
      }
      j := j + 1;
    }
    assert sub[..|sub|] == sub;
  }

  /** `_parse_contexts` (utils.py:92-111). */
  method ParseContexts(root: Element) returns (ctx: map<string, Date>)
    ensures ctx == Contexts(root)
  {
    ctx := map[];
    var nodes := Iter(root);
    var i := 0;
    while i < |nodes|
      invariant 0 <= i <= |nodes|
      invariant ctx == WriteAll(map[], FilterMap(nodes[..i], ContextEntry))
    {
      WriteAllStep(map[], nodes[..i + 1], ContextEntry);
      assert nodes[..i + 1][..i] == nodes[..i];
      var el := nodes[i];
      if LocalName(el.tag) == "context" && el.id.Some? && el.id.value != "" {
        var endDate := ContextDate(el);
        if endDate.Some? {
          ctx := ctx[el.id.value := endDate.value];
        }
      }
      i := i + 1;
    }
    assert nodes[..|nodes|] == nodes;
  }

  // ---------- Facts ----------

  /** The key of the first concept in `cs` whose tag list holds `ln`. */
  function ConceptIn(cs: seq<Concept>, ln: string): (r: Option<string>)
    ensures r.None? <==> forall i :: 0 <= i < |cs| ==> ln !in cs[i].tags
  {
    if cs == [] then None
    else if ln in cs[0].tags then Some(cs[0].key)
    else
      var r := ConceptIn(cs[1..], ln);
      assert forall i :: 1 <= i < |cs| ==> cs[i] == cs[1..][i - 1];
      r
  }

  /** A key the lookup returns is that of a concept listing the name. */
  lemma {:induction false} ConceptInKey(cs: seq<Concept>, ln: string) returns (i: int)
    requires ConceptIn(cs, ln).Some?
    ensures 0 <= i < |cs| && cs[i].key == ConceptIn(cs, ln).value && ln in cs[i].tags
  {
    if ln in cs[0].tags {
      i := 0;
    } else {
      i := ConceptInKey(cs[1..], ln);
      i := i + 1;
    }
  }

  /** `cs[i]` is the first concept whose tag list holds `ln`. */
  ghost predicate FirstListing(cs: seq<Concept>, ln: string, i: int)
  {
    0 <= i < |cs| && ln in cs[i].tags && forall j :: 0 <= j < i ==> ln !in cs[j].tags
  }

  /** The lookup returns the key of the first concept listing the name. */
  lemma {:induction false} ConceptInFirst(cs: seq<Concept>, ln: string, i: int)
    requires FirstListing(cs, ln, i)
    ensures ConceptIn(cs, ln) == Some(cs[i].key)
  {
    if i > 0 {
      assert FirstListing(cs[1..], ln, i - 1) by {
        assert forall j :: 0 <= j < i - 1 ==> cs[1..][j] == cs[j + 1];
      }
      ConceptInFirst(cs[1..], ln, i - 1);
    }
  }

  /** With disjoint tag lists, the concept listing a name is the one the lookup finds. */
  lemma ConceptInDisjoint(cs: seq<Concept>, ln: string, i: int)
    requires TagListsDisjoint(cs)
    requires 0 <= i < |cs| && ln in cs[i].tags
    ensures ConceptIn(cs, ln) == Some(cs[i].key)
  {
    ConceptInFirst(cs, ln, i);
  }

  /** Every configured name is recorded under the one concept that lists it. */
  lemma ConceptOfListing(ln: string, i: int)
    requires 0 <= i < |XbrlTagsLocal| && ln in XbrlTagsLocal[i].tags
    ensures ConceptIn(XbrlTagsLocal, ln) == Some(XbrlTagsLocal[i].key)
  {
    ConfiguredTagListsDisjoint();
    ConceptInDisjoint(XbrlTagsLocal, ln, i);
  }

  /** Every local name some concept of `cs` lists. */
  function DesiredTags(cs: seq<Concept>): set<string>
  {
    set c, t | c in cs && t in c.tags :: t
  }

  /** A name is wanted exactly when some concept lists it. */
  lemma DesiredTagsListed(cs: seq<Concept>, ln: string)
    ensures ln in DesiredTags(cs) <==> ConceptIn(cs, ln).Some?
  {
    if ConceptIn(cs, ln).Some? {
      var i := ConceptInKey(cs, ln);
      assert cs[i] in cs;
    }
  }

  /** The concept found in `cs[q..]` is the one found in `cs`, when the concepts before `q` do not list the name. */
  lemma ConceptInSkip(cs: seq<Concept>, ln: string, q: int)
    requires 0 <= q < |cs| && ln !in cs[q].tags
    ensures ConceptIn(cs[q..], ln) == ConceptIn(cs[q + 1..], ln)
  {
    assert cs[q..][1..] == cs[q + 1..];
  }

  /** `for key, tags in XBRL_TAGS_LOCAL.items(): if ln in tags: ... break` (utils.py:142-146), over the table `cs`. */
  method KeyOf(cs: seq<Concept>, ln: string) returns (key: Option<string>)
    ensures key == ConceptIn(cs, ln)
  {
    var q := 0;
    assert cs[q..] == cs;
    while q < |cs|
      invariant 0 <= q <= |cs|
      invariant ConceptIn(cs[q..], ln) == ConceptIn(cs, ln)
    {
      if ln in cs[q].tags {
        return Some(cs[q].key);
      }
      ConceptInSkip(cs, ln, q);
      q := q + 1;
    }
    return None;
  }

  /** A value recorded under concept `key` for period end `date`. */
  datatype Fact = Fact(key: string, date: Date, value: real)

  /**
   * The fact an element contributes given the concept table `cs` and its
   * document's contexts: its local name is listed, its `contextRef` is
   * non-empty and resolves, and its text with commas removed parses as a number.
   */
  function FactOf(cs: seq<Concept>, ctx: map<string, Date>, x: Element): (r: Option<Fact>)
    ensures r.Some? <==>
              && ConceptIn(cs, LocalName(x.tag)).Some?
              && x.contextRef.Some? && x.contextRef.value != "" && x.contextRef.value in ctx
              && FactValue(x.text).Some?
    ensures r.Some? ==>
              r.value == Fact(ConceptIn(cs, LocalName(x.tag)).value, ctx[x.contextRef.value], FactValue(x.text).value)
  {
    var key := ConceptIn(cs, LocalName(x.tag));
    if key.None? then None
    else if x.contextRef.None? || x.contextRef.value == "" || x.contextRef.value !in ctx then None
    else
      var v := FactValue(x.text);
      if v.None? then None else Some(Fact(key.value, ctx[x.contextRef.value], v.value))
  }

  /** `FactOf` for one document's contexts. */
  function FactIn(cs: seq<Concept>, ctx: map<string, Date>): Element -> Option<Fact>
  {
    (x: Element) => FactOf(cs, ctx, x)
  }

  /** `series[key][end_date] = val`. */
  function Put(s: Series, f: Fact): Series
  {
    s[f.key := SeriesAt(s, f.key)[f.date := f.value]]
  }

  /** The series after recording `fs` in order. */
  function Record(s: Series, fs: seq<Fact>): Series
  {
    if fs == [] then s else Put(Record(s, fs[..|fs| - 1]), fs[|fs| - 1])
  }

  /** Recording one more fact. */
  lemma RecordSnoc(s: Series, fs: seq<Fact>, f: Fact)
    ensures Record(s, fs + [f]) == Put(Record(s, fs), f)
  {
    assert (fs + [f])[..|fs|] == fs;
  }

  /** Record the fact `r`, if there is one. */
  function PutSome(s: Series, r: Option<Fact>): Series
  {
    if r.Some? then Put(s, r.value) else s
  }

  /** One more element: the fact it gives, if any, is recorded last. */
  lemma RecordFilterStep<T>(s: Series, xs: seq<T>, f: T -> Option<Fact>, j: int)
    requires 0 <= j < |xs|
    ensures Record(s, FilterMap(xs[..j + 1], f)) == PutSome(Record(s, FilterMap(xs[..j], f)), f(xs[j]))
  {
    assert xs[..j + 1][..j] == xs[..j];
    var before := FilterMap(xs[..j], f);
    if f(xs[j]).Some? {
      RecordSnoc(s, before, f(xs[j]).value);
    } else {
      assert before + [] == before;
    }
  }

  /** The (date, value) entry a fact gives for concept `k`. */
  function KeyedFact(k: string): Fact -> Option<(Date, real)>
  {
    (f: Fact) => if f.key == k then Some((f.date, f.value)) else None
  }

  /** Recording touches only the keys of the facts recorded. */
  lemma {:induction false} RecordKeys(s: Series, fs: seq<Fact>)
    ensures Record(s, fs).Keys == s.Keys + set f | f in fs :: f.key
  {
    if fs != [] {
      var n := |fs| - 1;
      RecordKeys(s, fs[..n]);
      assert fs == fs[..n] + [fs[n]];
      assert (set f | f in fs :: f.key) == (set f | f in fs[..n] :: f.key) + {fs[n].key};
    }
  }

  /** Under each concept, recording writes that concept's facts in order: the last fact for a date wins. */
  lemma {:induction false} RecordAt(s: Series, fs: seq<Fact>, k: string)
    ensures SeriesAt(Record(s, fs), k) == WriteAll(SeriesAt(s, k), FilterMap(fs, KeyedFact(k)))
  {
    if fs != [] {
      var n := |fs| - 1;
      RecordAt(s, fs[..n], k);
      WriteAllStep(SeriesAt(s, k), fs, KeyedFact(k));
    }
  }

  // ---------- Documents ----------

  /** ASCII lower-casing of one character. */
  function LowerChar(c: char): char
  {
    if 'A' <= c <= 'Z' then (c as int + 32) as char else c
  }

  /** `name.lower()` on ASCII letters. */
  function Lower(s: string): (r: string)
    ensures |r| == |s| && forall i :: 0 <= i < |s| ==> r[i] == LowerChar(s[i])
  {
    seq(|s|, i requires 0 <= i < |s| => LowerChar(s[i]))
  }

  /** `s.endswith(suffix)`. */
  predicate EndsWith(s: string, suffix: string)
  {
    |suffix| <= |s| && s[|s| - |suffix|..] == suffix
  }

  /** An archive member name ending in `.xbrl` or `.xml`, in any letter case. */
  predicate IsXbrlName(name: string)
  {
    var l := Lower(name);
    EndsWith(l, ".xbrl") || EndsWith(l, ".xml")
  }

  /** An archive member: its name, and its element tree, or `None` when it does not parse. */
  datatype Member = Member(name: string, root: Option<Element>)

  /** The members with an XBRL name, in archive order. */
  function XbrlMembers(members: seq<Member>): (r: seq<Member>)
    ensures forall m :: m in r <==> m in members && IsXbrlName(m.name)
  {
    if members == [] then []
    else
      var last := members[|members| - 1];
      assert members == members[..|members| - 1] + [last];
      XbrlMembers(members[..|members| - 1]) + (if IsXbrlName(last.name) then [last] else [])
  }

  /** Filtering a concatenation filters each part, keeping archive order and repeated members. */
  lemma {:induction false} XbrlMembersAppend(a: seq<Member>, b: seq<Member>)
    ensures XbrlMembers(a + b) == XbrlMembers(a) + XbrlMembers(b)
    decreases |b|
  {
    if b == [] {
      assert a + b == a;
    } else {
      var n := |b| - 1;
      assert (a + b)[..|a + b| - 1] == a + b[..n];
      assert (a + b)[|a + b| - 1] == b[n];
      XbrlMembersAppend(a, b[..n]);
    }
  }

  /** One member is kept exactly when its name is an XBRL name. */
  lemma XbrlMembersOne(m: Member)
    ensures XbrlMembers([m]) == if IsXbrlName(m.name) then [m] else []
  {
    assert [m][..0] == [];
  }

  /** The facts one document contributes, in document order. */
  function DocFacts(cs: seq<Concept>, root: Element): seq<Fact>
  {
    FilterMap(Iter(root), FactIn(cs, Contexts(root)))
  }

  /** The facts one archive member contributes; a member that does not parse contributes none. */
  function MemberFacts(cs: seq<Concept>, member: Member): seq<Fact>
  {
    if member.root.Some? then DocFacts(cs, member.root.value) else []
  }

  /** The facts of the documents in order. */
  function AllFacts(cs: seq<Concept>, files: seq<Member>): seq<Fact>
  {
    if files == [] then [] else AllFacts(cs, files[..|files| - 1]) + MemberFacts(cs, files[|files| - 1])
  }

  /** `{k: {} for k in XBRL_TAGS_LOCAL.keys()}`, for the table `cs`. */
  function InitialSeries(cs: seq<Concept>): Series
  {
    map k | k in KeysOf(cs) :: map[]
  }

  /** The series once every fact of every XBRL member has been recorded, before synthesis. */
  function Extracted(cs: seq<Concept>, members: seq<Member>): Series
  {
    Record(InitialSeries(cs), AllFacts(cs, XbrlMembers(members)))
  }

  /** What `parse_xbrl_series` returns: the configured concepts extracted, then the composites added. */
  function XbrlSeries(members: seq<Member>): Series
  {
    Synthesized(Extracted(XbrlTagsLocal, members))
  }

  // ---------- What the extraction promises ----------

  /** Every recorded fact is under a concept of the table. */
  lemma FactKeysListed(cs: seq<Concept>, ctx: map<string, Date>, nodes: seq<Element>)
    ensures forall f :: f in FilterMap(nodes, FactIn(cs, ctx)) ==> f.key in KeysOf(cs)
  {
    forall f | f in FilterMap(nodes, FactIn(cs, ctx))
      ensures f.key in KeysOf(cs)
    {
      var i := FilterMapFrom(nodes, FactIn(cs, ctx), f);
      assert FactOf(cs, ctx, nodes[i]) == Some(f);
      var c := ConceptInKey(cs, LocalName(nodes[i].tag));
      assert cs[c].key in KeysOf(cs);
    }
  }

  /** Every fact of every document is under a concept of the table. */
  lemma {:induction false} AllFactKeysListed(cs: seq<Concept>, files: seq<Member>)
    ensures forall f :: f in AllFacts(cs, files) ==> f.key in KeysOf(cs)
  {
    if files != [] {
      var n := |files| - 1;
      AllFactKeysListed(cs, files[..n]);
      if files[n].root.Some? {
        var root := files[n].root.value;
        FactKeysListed(cs, Contexts(root), Iter(root));
      }
    }
  }

  /** The extracted series has exactly one entry per concept of the table, whatever the documents hold. */
  lemma ExtractedKeys(cs: seq<Concept>, members: seq<Member>)
    ensures Extracted(cs, members).Keys == KeysOf(cs)
  {
    var fs := AllFacts(cs, XbrlMembers(members));
    RecordKeys(InitialSeries(cs), fs);
    AllFactKeysListed(cs, XbrlMembers(members));
  }

  /** With the configured table, none of the composites is among the extracted keys, so synthesis adds them. */
  lemma ExtractedHasNoComposites(members: seq<Member>)
    ensures Extracted(XbrlTagsLocal, members).Keys == ConceptKeys()
    ensures CompositeKeys !! Extracted(XbrlTagsLocal, members).Keys
  {
    ExtractedKeys(XbrlTagsLocal, members);
    KeysNotSynthesized();
  }

  /**
   * Recording the facts `fs` into the initial series, as the extraction does
   * with the facts of every member, puts a date under concept `k` exactly
   * when some fact has that key and date, and gives it the last such fact's
   * value.
   */
  lemma RecordedEntry(cs: seq<Concept>, fs: seq<Fact>, k: string, d: Date)
    ensures d in SeriesAt(Record(InitialSeries(cs), fs), k) <==> exists i :: EntryFor(fs, KeyedFact(k), d, i)
    ensures forall i :: LastEntryFor(fs, KeyedFact(k), d, i) ==> SeriesAt(Record(InitialSeries(cs), fs), k)[d] == fs[i].value
  {
    var empty: map<Date, real> := map[];
    RecordAt(InitialSeries(cs), fs, k);
    assert SeriesAt(InitialSeries(cs), k) == empty;
    WrittenKeys(empty, fs, KeyedFact(k), d);
    forall i | LastEntryFor(fs, KeyedFact(k), d, i)
      ensures SeriesAt(Record(InitialSeries(cs), fs), k)[d] == fs[i].value
    {
      LastEntryWins(empty, fs, KeyedFact(k), d, i);
    }
  }

  // ---------- The extraction loop ----------

  /** The body of the fact loop (utils.py:130-146): record the fact `x` gives, if any. */
  method RecordElement(cs: seq<Concept>, series: Series, ctx: map<string, Date>, desired: set<string>, x: Element)
    returns (series': Series)
    requires desired == DesiredTags(cs)
    ensures series' == PutSome(series, FactOf(cs, ctx, x))
  {
    series' := series;
    var ln := LocalName(x.tag);
    DesiredTagsListed(cs, ln);
    if ln !in desired {
      return;
    }
    var ctxId := x.contextRef;
    if ctxId.None? || ctxId.value == "" || ctxId.value !in ctx {
      return;
    }
    var val := FactValue(x.text);
    if val.None? {
      return;
    }
    var endDate := ctx[ctxId.value];
    var key := KeyOf(cs, ln);
    if key.Some? {
      series' := series[key.value := SeriesAt(series, key.value)[endDate := val.value]];
    }
  }

  /** The fact loop (utils.py:129-146) over the elements `nodes`, with the contexts `ctx`. */
  method RecordNodes(cs: seq<Concept>, series: Series, ctx: map<string, Date>, nodes: seq<Element>)
    returns (series': Series)
    ensures series' == Record(series, FilterMap(nodes, FactIn(cs, ctx)))
  {
    series' := series;
    var desired := DesiredTags(cs);
    var j := 0;
    while j < |nodes|
      invariant 0 <= j <= |nodes|
      invariant series' == Record(series, FilterMap(nodes[..j], FactIn(cs, ctx)))
    {
      RecordFilterStep(series, nodes, FactIn(cs, ctx), j);
      assert FactIn(cs, ctx)(nodes[j]) == FactOf(cs, ctx, nodes[j]);
      series' := RecordElement(cs, series', ctx, desired, nodes[j]);
      j := j + 1;
    }
    assert nodes[..|nodes|] == nodes;
  }

  /** One parsed document (utils.py:126-146): its contexts, then its facts, recorded into `series`. */
  method RecordDocument(cs: seq<Concept>, series: Series, root: Element) returns (series': Series)
    ensures series' == Record(series, DocFacts(cs, root))
  {
    var ctx := ParseContexts(root);
    series' := RecordNodes(cs, series, ctx, Iter(root));
  }

  /** One archive member: its facts when it parses as XML, nothing otherwise (utils.py:121-125). */
  method RecordMember(cs: seq<Concept>, series: Series, member: Member) returns (series': Series)
    ensures series' == Record(series, MemberFacts(cs, member))
  {
    if member.root.Some? {
      series' := RecordDocument(cs, series, member.root.value);
    } else {
      series' := series;
    }
  }

  /** One more member: its facts come last. */
  lemma AllFactsStep(cs: seq<Concept>, files: seq<Member>, m: int)
    requires 0 <= m < |files|
    ensures AllFacts(cs, files[..m + 1]) == AllFacts(cs, files[..m]) + MemberFacts(cs, files[m])
  {
    assert files[..m + 1][..m] == files[..m];
  }

  /** The loop over the XBRL members (utils.py:120-146), recording into `init`. */
  method RecordFiles(cs: seq<Concept>, init: Series, files: seq<Member>) returns (series: Series)
    ensures series == Record(init, AllFacts(cs, files))
  {
    series := init;
    var m := 0;
    while m < |files|
      invariant 0 <= m <= |files|
      invariant series == Record(init, AllFacts(cs, files[..m]))
    {
      AllFactsStep(cs, files, m);
      RecordAppend(init, AllFacts(cs, files[..m]), MemberFacts(cs, files[m]));
      series := RecordMember(cs, series, files[m]);
      m := m + 1;
    }
    assert files[..|files|] == files;
  }

  /** `parse_xbrl_series` (utils.py:113-161): every XBRL member's facts in archive order, then the composites. */
  method ParseXbrlSeries(members: seq<Member>) returns (series: Series)
    ensures series == XbrlSeries(members)
  {
    var files := XbrlMembers(members);
    series := RecordFiles(XbrlTagsLocal, InitialSeries(XbrlTagsLocal), files);
    series := AddComposites(series);
  }

  /** Recording two runs of facts is recording their concatenation. */
  lemma {:induction false} RecordAppend(s: Series, a: seq<Fact>, b: seq<Fact>)
    ensures Record(s, a + b) == Record(Record(s, a), b)
  {
    if b != [] {
      var n := |b| - 1;
      assert a + b == (a + b[..n]) + [b[n]];
      RecordAppend(s, a, b[..n]);
      RecordSnoc(s, a + b[..n], b[n]);
      RecordSnoc(Record(s, a), b[..n], b[n]);
      assert b == b[..n] + [b[n]];
    } else {
      assert a + b == a;
    }
  }
}
