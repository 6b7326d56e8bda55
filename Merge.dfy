/**
 What the request loop of `get_config` (app.py lines 35-54) computes, as
 functions: every fetched entry, source after source and entry after entry, is
 either dropped or renamed with the shared per-label counter and appended to
 the accepted list. The imperative loop in module Config is proved to compute
 exactly `Accepted`; the lemmas here state what that list is.
 */
module Merge {
  import opened Text
  import opened Labels
  import opened Naming

  /** One element of a fetched `proxies` list. A dict's `name` key lives in
      `name` alone: `fields` holds the dict's other keys and never the key
      "name", so `Mapping(None, _)` is exactly a dict without a name. */
  datatype Entry =
    | Mapping(name: Option<string>, fields: map<string, string>)  // a dict: its `name`, if it has one, and its other keys
    | Other(text: string)                                         // anything that is not a dict

  /** The outcome of fetching one subscription. */
  datatype Response =
    | RequestFailed                          // `requests.RequestException`
    | Fetched(proxies: Option<seq<Entry>>)   // the parsed mapping's `proxies` list, if it has the key

  /** `sub_config.get('proxies', [])`; a failed request contributes nothing. */
  function EntriesOf(r: Response): seq<Entry> {
    match r
    case RequestFailed => []
    case Fetched(None) => []
    case Fetched(Some(es)) => es
  }

  /** All entries of all responses, source after source. */
  function Flatten(rs: seq<Response>): seq<Entry> {
    if rs == [] then [] else Flatten(rs[..|rs| - 1]) + EntriesOf(rs[|rs| - 1])
  }

  // ---------------------------------------------------------------------------
  // Keyword exclusion (app.py lines 12 and 49)
  // ---------------------------------------------------------------------------

  /** `os.getenv('IGNORE_LABEL_KEYWORDS', '').split(',')`: no item is dropped, so
      an unset variable gives `[""]`. The keywords hold no comma and, joined
      with commas, give the variable's value back. */
  function ParseKeywords(env: Option<string>): (keywords: seq<string>)
    ensures |keywords| >= 1
    ensures forall i :: 0 <= i < |keywords| ==> ',' !in keywords[i]
    ensures Join(keywords, ',') == env.GetOr("")
  {
    Split(env.GetOr(""), ',')
  }

  /** `any(keyword in label for keyword in keywords)`. */
  function AnyKeywordIn(lbl: string, keywords: seq<string>): bool {
    keywords != [] && (Contains(lbl, keywords[0]) || AnyKeywordIn(lbl, keywords[1..]))
  }

  /** A label is excluded exactly when some keyword occurs in it. */
  lemma {:induction false} AnyKeywordInSpec(lbl: string, keywords: seq<string>)
    ensures AnyKeywordIn(lbl, keywords) <==>
      exists j, i :: 0 <= j < |keywords| && OccursAt(lbl, keywords[j], i)
  {
    if keywords != [] {
      AnyKeywordInSpec(lbl, keywords[1..]);
      ContainsSpec(lbl, keywords[0]);
      if exists j, i :: 0 <= j < |keywords| && OccursAt(lbl, keywords[j], i) {
        var j, i :| 0 <= j < |keywords| && OccursAt(lbl, keywords[j], i);
        if j > 0 {
          assert OccursAt(lbl, keywords[1..][j - 1], i);
        }
      }
      if AnyKeywordIn(lbl, keywords[1..]) {
        var j, i :| 0 <= j < |keywords[1..]| && OccursAt(lbl, keywords[1..][j], i);
        assert OccursAt(lbl, keywords[j + 1], i);
      }
    }
  }

  /** A blank keyword (an unset variable, a doubled or a trailing comma) occurs
      in every label, so it excludes every entry. */
  lemma BlankKeywordExcludesAll(lbl: string, keywords: seq<string>)
    requires "" in keywords
    ensures AnyKeywordIn(lbl, keywords)
  {
    var j :| 0 <= j < |keywords| && keywords[j] == "";
    assert OccursAt(lbl, keywords[j], 0);
    AnyKeywordInSpec(lbl, keywords);
  }

  lemma UnsetKeywordsAreBlank()
    ensures ParseKeywords(None) == [""]
  {
  }

  // ---------------------------------------------------------------------------
  // One step of the loop (app.py lines 46-52)
  // ---------------------------------------------------------------------------

  /** `isinstance(proxy, dict) and 'name' in proxy`. */
  predicate Considered(e: Entry) {
    e.Mapping? && e.name.Some?
  }

  function LabelOf(e: Entry): string
    requires Considered(e)
  {
    Label(e.name.value)
  }

  /** The entry is renamed and kept, rather than skipped. */
  predicate IsKept(e: Entry, keywords: seq<string>) {
    Considered(e) && !AnyKeywordIn(LabelOf(e), keywords)
  }

  /** `proxy['name']`, for an entry that has one. */
  function NameOf(e: Entry): string {
    if Considered(e) then e.name.value else ""
  }

  /** The state the loop carries: the `proxies` list built so far and `label_count`. */
  datatype Tally = Tally(accepted: seq<Entry>, counts: map<string, nat>)

  /** The state at the start of a request: nothing accepted, every count 0. */
  const Initial: Tally := Tally([], map[])

  /** Handling one entry: a kept entry gets the next name for its label (the
      name of the dict is rewritten, nothing else) and is appended. */
  function Step(t: Tally, e: Entry, keywords: seq<string>): Tally {
    if IsKept(e, keywords) then
      var lbl := LabelOf(e);
      var n := CountOf(t.counts, lbl) + 1;
      Tally(t.accepted + [e.(name := Some(DisplayName(lbl, n)))], t.counts[lbl := n])
    else t
  }

  /** Handling a sequence of entries, in order, from state `t`. */
  function Run(t: Tally, es: seq<Entry>, keywords: seq<string>): Tally {
    if es == [] then t else Step(Run(t, es[..|es| - 1], keywords), es[|es| - 1], keywords)
  }

  /** The `proxies` list a request builds from the fetched responses. */
  function Accepted(rs: seq<Response>, keywords: seq<string>): seq<Entry> {
    Run(Initial, Flatten(rs), keywords).accepted
  }

  // ---------------------------------------------------------------------------
  // A closed form of the loop
  // ---------------------------------------------------------------------------

  /** The entries that are kept, in their original order. */
  function Kept(es: seq<Entry>, keywords: seq<string>): (ks: seq<Entry>)
    ensures |ks| <= |es|
    ensures forall i :: 0 <= i < |ks| ==> IsKept(ks[i], keywords)
  {
    if es == [] then []
    else
      var init := Kept(es[..|es| - 1], keywords);
      var e := es[|es| - 1];
      if IsKept(e, keywords) then init + [e] else init
  }

  /** How many entries of `ks` carry label `lbl`. */
  function Occurrences(ks: seq<Entry>, lbl: string): nat {
    if ks == [] then 0
    else
      var e := ks[|ks| - 1];
      Occurrences(ks[..|ks| - 1], lbl) + (if Considered(e) && LabelOf(e) == lbl then 1 else 0)
  }

  /** The position of `ks[i]` among the entries of `ks` with the same label, counting from 1. */
  function Ordinal(ks: seq<Entry>, i: nat): nat
    requires i < |ks| && Considered(ks[i])
  {
    Occurrences(ks[..i + 1], LabelOf(ks[i]))
  }

  /** An entry renamed to `name`, every other field kept. */
  function Renamed(e: Entry, name: string): Entry
    requires e.Mapping?
  {
    e.(name := Some(name))
  }

  lemma {:induction false} OccurrencesAppend(a: seq<Entry>, b: seq<Entry>, lbl: string)
    ensures Occurrences(a + b, lbl) == Occurrences(a, lbl) + Occurrences(b, lbl)
    decreases |b|
  {
    if b != [] {
      var b' := b[..|b| - 1];
      OccurrencesAppend(a, b', lbl);
      assert (a + b)[..|a + b| - 1] == a + b';
    } else {
      assert a + b == a;
    }
  }

  /** Each label's count is the number of kept entries carrying it. */
  ghost predicate CountsMatch(c: map<string, nat>, ks: seq<Entry>) {
    forall lbl :: CountOf(c, lbl) == Occurrences(ks, lbl)
  }

  /** `acc` is the kept entries `ks`, in order, each renamed with its position
      among the entries of `ks` that carry the same label. */
  ghost predicate RenamedInOrder(ks: seq<Entry>, acc: seq<Entry>)
    requires forall i :: 0 <= i < |ks| ==> Considered(ks[i])
  {
    && |acc| == |ks|
    && forall i {:trigger acc[i]} :: 0 <= i < |ks| ==> acc[i] == Renamed(ks[i], DisplayName(LabelOf(ks[i]), Ordinal(ks, i)))
  }

  /** From the start of a request, each label's count is the number of kept entries carrying it. */
  lemma {:induction false} RunCounts(es: seq<Entry>, keywords: seq<string>)
    ensures CountsMatch(Run(Initial, es, keywords).counts, Kept(es, keywords))
  {
    if es != [] {
      var init, e := es[..|es| - 1], es[|es| - 1];
      RunCounts(init, keywords);
      var t', ks' := Run(Initial, init, keywords), Kept(init, keywords);
      var t, ks := Run(Initial, es, keywords), Kept(es, keywords);
      if IsKept(e, keywords) {
        assert ks[..|ks| - 1] == ks';
        forall l ensures CountOf(t.counts, l) == Occurrences(ks, l) {
          assert CountOf(t'.counts, l) == Occurrences(ks', l);
        }
      }
    }
  }

  lemma OrdinalOfPrefix(ks: seq<Entry>, e: Entry, i: nat)
    requires i < |ks| && Considered(ks[i])
    ensures Ordinal(ks + [e], i) == Ordinal(ks, i)
  {
    assert (ks + [e])[..i + 1] == ks[..i + 1];
  }

  /** The last of `ks + [e]` comes after every earlier entry with its label. */
  lemma OrdinalOfLast(ks: seq<Entry>, e: Entry)
    requires Considered(e)
    ensures Ordinal(ks + [e], |ks|) == Occurrences(ks, LabelOf(e)) + 1
  {
    var ks1 := ks + [e];
    assert ks1[..|ks| + 1] == ks1;
    assert ks1[..|ks|] == ks;
  }

  /** Appending an entry renamed with its position keeps the list renamed in order. */
  lemma ExtendRenamed(ks: seq<Entry>, acc: seq<Entry>, e: Entry)
    requires forall i :: 0 <= i < |ks| ==> Considered(ks[i])
    requires Considered(e)
    requires RenamedInOrder(ks, acc)
    ensures RenamedInOrder(ks + [e], acc + [Renamed(e, DisplayName(LabelOf(e), Ordinal(ks + [e], |ks|)))])
  {
    var ks1, acc1 := ks + [e], acc + [Renamed(e, DisplayName(LabelOf(e), Ordinal(ks + [e], |ks|)))];
    forall i | 0 <= i < |ks|
      ensures acc1[i] == Renamed(ks1[i], DisplayName(LabelOf(ks1[i]), Ordinal(ks1, i)))
    {
      OrdinalOfPrefix(ks, e, i);
    }
  }

  /** One kept entry extends the renamed list by itself, renamed with the next count of its label. */
  lemma StepAccepted(ks: seq<Entry>, t: Tally, e: Entry, keywords: seq<string>)
    requires forall i :: 0 <= i < |ks| ==> Considered(ks[i])
    requires RenamedInOrder(ks, t.accepted)
    requires CountsMatch(t.counts, ks)
    requires IsKept(e, keywords)
    ensures RenamedInOrder(ks + [e], Step(t, e, keywords).accepted)
  {
    var lbl := LabelOf(e);
    OrdinalOfLast(ks, e);
    assert CountOf(t.counts, lbl) == Occurrences(ks, lbl);
    ExtendRenamed(ks, t.accepted, e);
  }

  /** From the start of a request, the accepted list is every kept entry,
      in order, renamed with its position among the kept entries with the same label. */
  lemma {:induction false} RunAccepted(es: seq<Entry>, keywords: seq<string>)
    ensures RenamedInOrder(Kept(es, keywords), Run(Initial, es, keywords).accepted)
  {
    if es != [] {
      var init, e := es[..|es| - 1], es[|es| - 1];
      RunAccepted(init, keywords);
      RunCounts(init, keywords);
      if IsKept(e, keywords) {
        StepAccepted(Kept(init, keywords), Run(Initial, init, keywords), e, keywords);
      }
    }
  }

  /** The accepted list is the kept entries, in order, each renamed to
      `"<label> <n:03>"` where n is its position among the kept entries with the
      same label (from 1), with every other field unchanged. */
  lemma AcceptedClosedForm(rs: seq<Response>, keywords: seq<string>)
    ensures var acc, ks := Accepted(rs, keywords), Kept(Flatten(rs), keywords);
      && |acc| == |ks|
      && (forall i :: 0 <= i < |ks| ==>
            acc[i] == Renamed(ks[i], DisplayName(LabelOf(ks[i]), Ordinal(ks, i)))
            && acc[i].fields == ks[i].fields)
  {
    RunAccepted(Flatten(rs), keywords);
  }

  /** Among entries with the same label, later ones have strictly larger positions, the first being 1. */
  lemma OrdinalsIncrease(ks: seq<Entry>, i: nat, j: nat)
    requires i < j < |ks| && Considered(ks[i]) && Considered(ks[j])
    requires LabelOf(ks[i]) == LabelOf(ks[j])
    ensures 1 <= Ordinal(ks, i) < Ordinal(ks, j)
  {
    var lbl := LabelOf(ks[i]);
    assert ks[..j + 1] == ks[..i + 1] + ks[i + 1..j + 1];
    OccurrencesAppend(ks[..i + 1], ks[i + 1..j + 1], lbl);
    var tail := ks[i + 1..j + 1];
    assert tail == tail[..|tail| - 1] + [ks[j]];
    assert ks[..i + 1][..i] == ks[..i];
  }

  /** Every accepted name is different from every other, whether the two
      entries share a label or not, and whichever source they came from. */
  lemma AcceptedNamesDistinct(rs: seq<Response>, keywords: seq<string>)
    ensures var acc := Accepted(rs, keywords);
      forall i, j :: 0 <= i < j < |acc| ==> NameOf(acc[i]) != NameOf(acc[j])
  {
    var acc, ks := Accepted(rs, keywords), Kept(Flatten(rs), keywords);
    AcceptedClosedForm(rs, keywords);
    forall i, j | 0 <= i < j < |acc| ensures NameOf(acc[i]) != NameOf(acc[j]) {
      var li, lj := LabelOf(ks[i]), LabelOf(ks[j]);
      if li == lj {
        OrdinalsIncrease(ks, i, j);
      }
      if DisplayName(li, Ordinal(ks, i)) == DisplayName(lj, Ordinal(ks, j)) {
        DisplayNameInjective(li, Ordinal(ks, i), lj, Ordinal(ks, j));
      }
    }
  }

  // ---------------------------------------------------------------------------
  // Order, sources and dropped entries
  // ---------------------------------------------------------------------------

  /** Keeping entries preserves order: on a concatenation it is the concatenation of the kept parts. */
  lemma {:induction false} KeptAppend(a: seq<Entry>, b: seq<Entry>, keywords: seq<string>)
    ensures Kept(a + b, keywords) == Kept(a, keywords) + Kept(b, keywords)
    decreases |b|
  {
    if b == [] {
      assert a + b == a;
    } else {
      var b' := b[..|b| - 1];
      KeptAppend(a, b', keywords);
      assert (a + b)[..|a + b| - 1] == a + b';
    }
  }

  /** An entry is kept exactly when it is a named dict whose label holds none of the keywords. */
  lemma {:induction false} KeptMembers(es: seq<Entry>, keywords: seq<string>)
    ensures forall e :: e in Kept(es, keywords) <==> e in es && IsKept(e, keywords)
  {
    if es != [] {
      var init := es[..|es| - 1];
      KeptMembers(init, keywords);
      assert es == init + [es[|es| - 1]];
    }
  }

  /** The loop state threads through a concatenation of entry lists. */
  lemma {:induction false} RunAppend(t: Tally, a: seq<Entry>, b: seq<Entry>, keywords: seq<string>)
    ensures Run(t, a + b, keywords) == Run(Run(t, a, keywords), b, keywords)
    decreases |b|
  {
    if b == [] {
      assert a + b == a;
    } else {
      var b' := b[..|b| - 1];
      RunAppend(t, a, b', keywords);
      assert (a + b)[..|a + b| - 1] == a + b';
    }
  }

  lemma {:induction false} FlattenAppend(r1: seq<Response>, r2: seq<Response>)
    ensures Flatten(r1 + r2) == Flatten(r1) + Flatten(r2)
    decreases |r2|
  {
    if r2 == [] {
      assert r1 + r2 == r1;
    } else {
      var r2' := r2[..|r2| - 1];
      FlattenAppend(r1, r2');
      assert (r1 + r2)[..|r1 + r2| - 1] == r1 + r2';
    }
  }

  /** The counter is shared by all sources of a request: the later sources are
      handled from the state the earlier ones left, so their numbering continues. */
  lemma SharedCounterAcrossSources(r1: seq<Response>, r2: seq<Response>, keywords: seq<string>)
    ensures Run(Initial, Flatten(r1 + r2), keywords) ==
            Run(Run(Initial, Flatten(r1), keywords), Flatten(r2), keywords)
  {
    FlattenAppend(r1, r2);
    RunAppend(Initial, Flatten(r1), Flatten(r2), keywords);
  }

  /** A failed source contributes nothing, and the sources after it are still handled. */
  lemma FailedSourceSkipped(r1: seq<Response>, r2: seq<Response>, keywords: seq<string>)
    ensures Accepted(r1 + [RequestFailed] + r2, keywords) == Accepted(r1 + r2, keywords)
  {
    FlattenAppend(r1 + [RequestFailed], r2);
    FlattenAppend(r1, [RequestFailed]);
    FlattenAppend(r1, r2);
    assert Flatten([RequestFailed]) == [];
    assert Flatten(r1) + [] == Flatten(r1);
  }

  /** A dropped entry uses up no count: removing it changes nothing, before or after it. */
  lemma DroppedEntryUsesNoCount(t: Tally, a: seq<Entry>, e: Entry, b: seq<Entry>, keywords: seq<string>)
    requires !IsKept(e, keywords)
    ensures Run(t, a + [e] + b, keywords) == Run(t, a + b, keywords)
  {
    RunAppend(t, a + [e], b, keywords);
    RunAppend(t, a, b, keywords);
    assert (a + [e])[..|a|] == a;
  }

  /** When every source fails, nothing is accepted. */
  lemma AllFailedAcceptsNothing(rs: seq<Response>, keywords: seq<string>)
    requires forall i :: 0 <= i < |rs| ==> rs[i] == RequestFailed
    ensures Accepted(rs, keywords) == []
  {
    FlattenOfFailures(rs);
  }

  lemma {:induction false} FlattenOfFailures(rs: seq<Response>)
    requires forall i :: 0 <= i < |rs| ==> rs[i] == RequestFailed
    ensures Flatten(rs) == []
  {
    if rs != [] {
      FlattenOfFailures(rs[..|rs| - 1]);
    }
  }

  /** With `IGNORE_LABEL_KEYWORDS` unset the keyword list is `[""]`, and every entry is dropped. */
  lemma UnsetKeywordsAcceptNothing(rs: seq<Response>)
    ensures Accepted(rs, ParseKeywords(None)) == []
  {
    var keywords := ParseKeywords(None);
    assert keywords == [""];
    var ks := Kept(Flatten(rs), keywords);
    AcceptedClosedForm(rs, keywords);
    if ks != [] {
      BlankKeywordExcludesAll(LabelOf(ks[0]), keywords);
    }
  }
}
