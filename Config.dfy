/**
 The body of `get_config` (app.py lines 30-58) as the imperative code it is:
 the loop over the subscription list that fetches each source and renames
 and collects its entries through one shared `LabelCount`, and the loop that
 extends every proxy group's member list in place. Fetching is replaced by a
 list of responses, one for each item requested, in request order.
 */
module Config {
  import opened Text
  import opened Labels
  import opened Naming
  import opened Sources
  import opened Merge

  /** One HTTP GET the request makes. */
  datatype Request = Request(url: string, headers: map<string, string>)

  /** The headers sent with every fetch (app.py line 32). */
  const FetchHeaders: map<string, string> := map["User-Agent" := "clash", "Accept" := "application/yaml"]

  /** The GETs made for `items`, in order. */
  function RequestsFor(items: seq<string>, template: string): seq<Request>
    requires forall item :: item in items ==> IsUrl(item) || PlainTemplate(template)
  {
    if items == [] then []
    else
      var last := items[|items| - 1];
      RequestsFor(items[..|items| - 1], template) + [Request(Resolve(last, template), FetchHeaders)]
  }

  /** One GET per item, in item order, for the item's URL, with the fixed headers. */
  lemma {:induction false} RequestsForSpec(items: seq<string>, template: string)
    requires forall item :: item in items ==> IsUrl(item) || PlainTemplate(template)
    ensures var rq := RequestsFor(items, template);
      && |rq| == |items|
      && forall i :: 0 <= i < |items| ==> rq[i] == Request(Resolve(items[i], template), FetchHeaders)
  {
    if items != [] {
      var init := items[..|items| - 1];
      RequestsForSpec(init, template);
    }
  }

  /** The names of the accepted entries, in order: `map(lambda p: p['name'], proxies)`. */
  function NamesOf(es: seq<Entry>): (names: seq<string>)
    ensures |names| == |es|
    ensures forall i :: 0 <= i < |es| ==> names[i] == NameOf(es[i])
  {
    if es == [] then [] else NamesOf(es[..|es| - 1]) + [NameOf(es[|es| - 1])]
  }

  /** One element of the template's `proxy-groups` list. */
  class ProxyGroup {
    const attributes: map<string, string>   // `name`, `type` and the group's other keys
    var members: seq<string>                 // the group's `proxies` list

    constructor (attributes: map<string, string>, members: seq<string>)
      ensures this.attributes == attributes && this.members == members
    {
      this.attributes := attributes;
      this.members := members;
    }
  }

  /** The loaded template document. */
  class Document {
    const attributes: map<string, string>   // its other top-level keys
    var proxies: seq<Entry>                  // `config['proxies']`
    const groups: seq<ProxyGroup>            // `config['proxy-groups']`

    constructor (attributes: map<string, string>, proxies: seq<Entry>, groups: seq<ProxyGroup>)
      ensures this.attributes == attributes && this.proxies == proxies && this.groups == groups
    {
      this.attributes := attributes;
      this.proxies := proxies;
      this.groups := groups;
    }
  }

  /** No group object appears twice in the list. */
  predicate DistinctGroups(groups: seq<ProxyGroup>) {
    forall i, j :: 0 <= i < j < |groups| ==> groups[i] != groups[j]
  }

  /** Lines 56-58: the document's `proxies` becomes the accepted list, and every
      group's member list becomes its old list followed by all accepted names,
      in acceptance order. The list of groups and their other keys stay as they were. */
  method Assemble(doc: Document, accepted: seq<Entry>)
    requires DistinctGroups(doc.groups)
    modifies doc, doc.groups
    ensures doc.proxies == accepted
    ensures forall i :: 0 <= i < |doc.groups| ==>
      doc.groups[i].members == old(doc.groups[i].members) + NamesOf(accepted)
  {
    doc.proxies := accepted;
    var names := NamesOf(doc.proxies);
    for i := 0 to |doc.groups|
      invariant doc.proxies == accepted
      invariant forall k :: 0 <= k < i ==> doc.groups[k].members == old(doc.groups[k].members) + names
      invariant forall k :: i <= k < |doc.groups| ==> doc.groups[k].members == old(doc.groups[k].members)
    {
      doc.groups[i].members := doc.groups[i].members + names;
    }
  }

  /** Lines 46-52 for one fetched source: every dict with a `name` whose label
      holds no keyword gets the next name for its label from the shared counter
      and is appended to `proxies`; the others are skipped. */
  method CollectEntries(labelCount: LabelCount, proxies: seq<Entry>, subProxies: seq<Entry>, keywords: seq<string>)
    returns (collected: seq<Entry>)
    modifies labelCount
    ensures Tally(collected, labelCount.counts) == Run(Tally(proxies, old(labelCount.counts)), subProxies, keywords)
  {
    ghost var start := Tally(proxies, labelCount.counts);
    collected := proxies;
    for idx := 0 to |subProxies|
      invariant Tally(collected, labelCount.counts) == Run(start, subProxies[..idx], keywords)
    {
      assert subProxies[..idx + 1][..idx] == subProxies[..idx];
      var proxy := subProxies[idx];
      if proxy.Mapping? && proxy.name.Some? {
        var lbl := Label(proxy.name.value);
        if AnyKeywordIn(lbl, keywords) {
          continue;
        }
        var newName := labelCount.GenerateName(lbl);
        collected := collected + [proxy.(name := Some(newName))];
      }
    }
    assert subProxies[..|subProxies|] == subProxies;
  }

  /** Lines 39-54 for one non-blank item: the URL requested for it, and the
      entries of its response, when the request succeeded, handled with the
      shared counter. A failed request adds nothing. */
  method FetchOne(labelCount: LabelCount, proxies: seq<Entry>, sub: string, template: string,
                  response: Response, keywords: seq<string>)
    returns (subUrl: string, collected: seq<Entry>)
    requires IsUrl(sub) || PlainTemplate(template)
    modifies labelCount
    ensures subUrl == Resolve(sub, template)
    ensures Tally(collected, labelCount.counts) == Run(Tally(proxies, old(labelCount.counts)), EntriesOf(response), keywords)
  {
    subUrl := if IsUrl(sub) then sub else Format(template, sub);
    collected := proxies;
    if response.Fetched? {
      collected := CollectEntries(labelCount, proxies, EntriesOf(response), keywords);
    }
  }

  /** How the items of a split list grow with one more piece. */
  lemma NonBlankStep(parts: seq<string>, i: nat)
    requires i < |parts|
    ensures NonBlank(parts[..i + 1]) == NonBlank(parts[..i]) + StripItem(parts[i])
  {
    var front := parts[..i + 1];
    assert front[..|front| - 1] == parts[..i];
  }

  /** The items seen after `i + 1` pieces, in terms of those seen after `i`:
      a blank piece adds none, any other piece adds the next item. */
  lemma ItemStep(parts: seq<string>, i: nat, items: seq<string>, k: nat)
    requires i < |parts| && NonBlank(parts) == items
    requires k <= |items| && NonBlank(parts[..i]) == items[..k]
    ensures StripItem(parts[i]) == [] ==> NonBlank(parts[..i + 1]) == items[..k]
    ensures StripItem(parts[i]) != [] ==>
      k < |items| && [items[k]] == StripItem(parts[i]) && NonBlank(parts[..i + 1]) == items[..k + 1]
  {
    var one := StripItem(parts[i]);
    var rest := NonBlank(parts[i + 1..]);
    NonBlankStep(parts, i);
    assert parts[..i + 1] + parts[i + 1..] == parts;
    NonBlankAppend(parts[..i + 1], parts[i + 1..]);
    assert items == items[..k] + one + rest;
    if one != [] {
      assert items[..k + 1] == items[..k] + one;
    }
  }

  /** One more request, for the next item. */
  lemma RequestsStep(items: seq<string>, k: nat, template: string)
    requires k < |items|
    requires forall item :: item in items ==> IsUrl(item) || PlainTemplate(template)
    ensures RequestsFor(items[..k + 1], template) ==
      RequestsFor(items[..k], template) + [Request(Resolve(items[k], template), FetchHeaders)]
  {
    var front := items[..k + 1];
    assert front[..|front| - 1] == items[..k];
  }

  /** The step of the source loop for piece `i`: a blank piece is skipped; any
      other piece is the next item, can be resolved, and adds its request. */
  lemma NextItem(parts: seq<string>, i: nat, items: seq<string>, k: nat, template: string)
    requires i < |parts| && NonBlank(parts) == items
    requires k <= |items| && NonBlank(parts[..i]) == items[..k]
    requires forall item :: item in items ==> IsUrl(item) || PlainTemplate(template)
    ensures Strip(parts[i]) == [] ==> NonBlank(parts[..i + 1]) == items[..k]
    ensures Strip(parts[i]) != [] ==>
      && k < |items| && NonBlank(parts[..i + 1]) == items[..k + 1]
      && (IsUrl(Strip(parts[i])) || PlainTemplate(template))
      && RequestsFor(items[..k + 1], template) ==
         RequestsFor(items[..k], template) + [Request(Resolve(Strip(parts[i]), template), FetchHeaders)]
  {
    ItemStep(parts, i, items, k);
    if Strip(parts[i]) != [] {
      assert items[k] == Strip(parts[i]);
      assert items[k] in items;
      RequestsStep(items, k, template);
    }
  }

  /** One more response consumed: the run goes on over its entries. */
  lemma RunStep(responses: seq<Response>, k: nat, keywords: seq<string>)
    requires k < |responses|
    ensures Run(Initial, Flatten(responses[..k + 1]), keywords) ==
      Run(Run(Initial, Flatten(responses[..k]), keywords), EntriesOf(responses[k]), keywords)
  {
    var front := responses[..k + 1];
    assert front[..|front| - 1] == responses[..k];
    assert Flatten(front) == Flatten(responses[..k]) + EntriesOf(responses[k]);
    RunAppend(Initial, Flatten(responses[..k]), EntriesOf(responses[k]), keywords);
  }

  /** Lines 31-54: one GET per stripped, non-blank subscription item, in list
      order; the entries of the responses are renamed and collected through one
      `label_count` created for the request. */
  method FetchSources(subs: string, template: string, keywords: seq<string>, responses: seq<Response>)
    returns (requests: seq<Request>, proxies: seq<Entry>)
    requires Resolvable(subs, template)
    requires |responses| == |Items(subs)|
    ensures requests == RequestsFor(Items(subs), template)
    ensures proxies == Accepted(responses, keywords)
  {
    var labelCount := new LabelCount();
    var subsList := Split(subs, ',');
    proxies := [];
    requests := [];
    ghost var items := Items(subs);
    var k := 0;  // how many items have been fetched
    for i := 0 to |subsList|
      invariant k <= |items| && NonBlank(subsList[..i]) == items[..k]
      invariant requests == RequestsFor(items[..k], template)
      invariant Run(Initial, Flatten(responses[..k]), keywords) == Tally(proxies, labelCount.counts)
    {
      NextItem(subsList, i, items, k, template);
      var sub := Strip(subsList[i]);
      if sub == [] {
        continue;
      }
      var subUrl;
      subUrl, proxies := FetchOne(labelCount, proxies, sub, template, responses[k], keywords);
      requests := requests + [Request(subUrl, FetchHeaders)];
      RunStep(responses, k, keywords);
      k := k + 1;
    }
    assert subsList[..|subsList|] == subsList;
    assert responses[..k] == responses && items[..k] == items;
  }

  /** The request handler minus the template read and the YAML output: the
      GETs of `FetchSources`; the accepted entries become the document's
      `proxies`, and their names are appended to every group. */
  method GetConfig(doc: Document, subs: string, template: string, keywords: seq<string>, responses: seq<Response>)
    returns (requests: seq<Request>)
    requires Resolvable(subs, template)
    requires |responses| == |Items(subs)|
    requires DistinctGroups(doc.groups)
    modifies doc, doc.groups
    ensures requests == RequestsFor(Items(subs), template)
    ensures doc.proxies == Accepted(responses, keywords)
    ensures forall i :: 0 <= i < |doc.groups| ==>
      doc.groups[i].members == old(doc.groups[i].members) + NamesOf(doc.proxies)
  {
    var proxies;
    requests, proxies := FetchSources(subs, template, keywords, responses);
    Assemble(doc, proxies);
  }
}
