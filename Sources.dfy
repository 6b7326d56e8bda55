/**
 Source list resolution (app.py lines 31 and 35-39): the comma-separated
 subscription list is split, every item is stripped, blank items are skipped,
 and each remaining item is either a full URL, used as it is, or a token put
 in place of `{token}` in the URL template.
 */
module Sources {
  import opened Text

  const Placeholder: string := "{token}"

  /** `item.startswith(('https://', 'http://'))`. */
  predicate IsUrl(item: string) {
    StartsWith(item, "https://") || StartsWith(item, "http://")
  }

  /** A template whose only braces are `{token}` placeholders; `str.format`
      raises on any other brace, so only these templates can be formatted. */
  predicate PlainTemplate(t: string)
    decreases |t|
  {
    || t == []
    || (StartsWith(t, Placeholder) && PlainTemplate(t[|Placeholder|..]))
    || (t[0] != '{' && t[0] != '}' && PlainTemplate(t[1..]))
  }

  /** `template.format(token=token)`: every `{token}` placeholder replaced by `token`. */
  function Format(template: string, token: string): string
    requires PlainTemplate(template)
    decreases |template|
  {
    if template == [] then []
    else if StartsWith(template, Placeholder) then token + Format(template[|Placeholder|..], token)
    else [template[0]] + Format(template[1..], token)
  }

  /** The URL fetched for one stripped, non-blank item: a URL is fetched as it
      is; any other item is put into the template. */
  function Resolve(item: string, template: string): (url: string)
    requires IsUrl(item) || PlainTemplate(template)
    ensures IsUrl(item) ==> url == item
  {
    if IsUrl(item) then item else Format(template, item)
  }

  /** One piece of the list: nothing when it is blank, else the piece stripped. */
  function StripItem(part: string): seq<string> {
    var t := Strip(part);
    if t == [] then [] else [t]
  }

  /** The stripped, non-blank pieces of a split list, in order. */
  function NonBlank(parts: seq<string>): seq<string> {
    if parts == [] then [] else NonBlank(parts[..|parts| - 1]) + StripItem(parts[|parts| - 1])
  }

  /** The subscription items the request loop fetches, in order. */
  function Items(subs: string): seq<string> {
    NonBlank(Split(subs, ','))
  }

  /** A list without a comma is a single item, or none when it is blank. */
  lemma ItemsWithoutComma(subs: string)
    requires ',' !in subs
    ensures Items(subs) == StripItem(subs)
  {
    SplitNoSep(subs, ',');
    assert Split(subs, ',')[..0] == [];
  }

  /** Every item can be turned into a URL: it is one already, or the template can be formatted. */
  predicate Resolvable(subs: string, template: string) {
    forall item :: item in Items(subs) ==> IsUrl(item) || PlainTemplate(template)
  }

  // ---------------------------------------------------------------------------
  // Items
  // ---------------------------------------------------------------------------

  lemma StripChars(s: string)
    ensures forall c :: c in Strip(s) ==> c in s
  {
    StripSpec(s);
    var r := Strip(s);
    var i :| 0 <= i <= |s| - |r| && s[i..i + |r|] == r && AllSpace(s[..i]) && AllSpace(s[i + |r|..]);
    forall c | c in r ensures c in s {
      var k :| 0 <= k < |r| && r[k] == c;
      assert s[i + k] == c;
    }
  }

  /** Every kept piece is non-empty, already stripped and, when the pieces come
      from a split, free of the separator. */
  lemma {:induction false} NonBlankSpec(parts: seq<string>)
    requires forall i :: 0 <= i < |parts| ==> ',' !in parts[i]
    ensures forall t :: t in NonBlank(parts) ==> t != [] && ',' !in t && Strip(t) == t
  {
    if parts != [] {
      var init, last := parts[..|parts| - 1], parts[|parts| - 1];
      NonBlankSpec(init);
      StripChars(last);
      StripIdempotent(last);
      forall t | t in NonBlank(parts) ensures t != [] && ',' !in t && Strip(t) == t {
        if t !in NonBlank(init) {
          assert t == Strip(last);
        }
      }
    }
  }

  /** Items are non-empty, hold no comma and have no surrounding whitespace. */
  lemma ItemsSpec(subs: string)
    ensures forall t :: t in Items(subs) ==> t != [] && ',' !in t && Strip(t) == t
  {
    NonBlankSpec(Split(subs, ','));
  }

  /** One more piece at the end adds its item, if any, at the end. */
  lemma NonBlankSnoc(p: seq<string>, x: string)
    ensures NonBlank(p + [x]) == NonBlank(p) + StripItem(x)
  {
    assert (p + [x])[..|p|] == p;
  }

  lemma {:induction false} NonBlankAppend(p: seq<string>, q: seq<string>)
    ensures NonBlank(p + q) == NonBlank(p) + NonBlank(q)
    decreases |q|
  {
    if q == [] {
      assert p + q == p;
    } else {
      var q', x := q[..|q| - 1], q[|q| - 1];
      assert p + q == (p + q') + [x];
      calc {
        NonBlank(p + q);
        NonBlank((p + q') + [x]);
        { NonBlankSnoc(p + q', x); }
        NonBlank(p + q') + StripItem(x);
        { NonBlankAppend(p, q'); }
        NonBlank(p) + NonBlank(q') + StripItem(x);
        { NonBlankSnoc(q', x); assert q' + [x] == q; }
        NonBlank(p) + NonBlank(q);
      }
    }
  }

  /** Items keep the order of the list: the items of `a,b` are those of `a` followed by those of `b`. */
  lemma ItemsAppend(a: string, b: string)
    ensures Items(a + [','] + b) == Items(a) + Items(b)
  {
    SplitAppend(a, ',', b);
    NonBlankAppend(Split(a, ','), Split(b, ','));
  }

  // ---------------------------------------------------------------------------
  // Template substitution
  // ---------------------------------------------------------------------------

  /** Text without an opening brace is a template with no placeholder: formatting leaves it as it is. */
  lemma {:induction false} FormatBraceFree(t: string, token: string)
    requires '{' !in t && '}' !in t
    ensures PlainTemplate(t) && Format(t, token) == t
    decreases |t|
  {
    if t != [] {
      FormatBraceFree(t[1..], token);
      assert [t[0]] + t[1..] == t;
    }
  }

  /** The placeholder on its own formats to the token. */
  lemma FormatPlaceholder(token: string)
    ensures PlainTemplate(Placeholder) && Format(Placeholder, token) == token
  {
    assert Placeholder[|Placeholder|..] == [];
    assert token + [] == token;
  }

  /** A prefix of `a` is a prefix of `a + b`, and what follows it is extended by `b`. */
  lemma StartsWithAppend(a: string, b: string, p: string)
    requires StartsWith(a, p)
    ensures StartsWith(a + b, p) && (a + b)[|p|..] == a[|p|..] + b
  {
    assert (a + b)[..|p|] == a[..|p|];
  }

  /** Formatting works piece by piece: on a concatenation of templates it is the
      concatenation of the formatted pieces. */
  lemma {:induction false} FormatAppend(a: string, b: string, token: string)
    requires PlainTemplate(a) && PlainTemplate(b)
    ensures PlainTemplate(a + b) && Format(a + b, token) == Format(a, token) + Format(b, token)
    decreases |a|
  {
    if a == [] {
      assert a + b == b;
    } else if StartsWith(a, Placeholder) {
      var n := |Placeholder|;
      FormatAppend(a[n..], b, token);
      StartsWithAppend(a, b, Placeholder);
    } else {
      FormatAppend(a[1..], b, token);
      assert (a + b)[1..] == a[1..] + b;
      // a does not start with a placeholder, so it starts with a character that
      // is not a brace, and neither does a + b
      assert (a + b)[0] == a[0] != '{';
      assert !StartsWith(a + b, Placeholder) by {
        assert Placeholder[0] == '{';
      }
    }
  }

  /** Putting the placeholder in for itself gives the template back. */
  lemma {:induction false} FormatIdentity(t: string)
    requires PlainTemplate(t)
    ensures Format(t, Placeholder) == t
    decreases |t|
  {
    var n := |Placeholder|;
    if t != [] {
      if StartsWith(t, Placeholder) {
        FormatIdentity(t[n..]);
        assert t[..n] + t[n..] == t;
      } else {
        FormatIdentity(t[1..]);
        assert [t[0]] + t[1..] == t;
      }
    }
  }
}
