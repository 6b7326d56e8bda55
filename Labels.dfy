/**
 Label derivation: `re.sub(r'\s*\d.+', '', name)` (app.py line 48), written
 out as an explicit cut rule instead of a regular-expression engine.

 The first digit that has at least one character after it marks where the
 numeric tail starts; the label is the name up to the whitespace run that
 ends just before that digit. A name without such a digit is its own label.
 */
module Labels {
  import opened Text

  /** A digit that `\d.+` can match: it has at least one character after it. */
  predicate IsCutDigit(s: string, j: int)
    requires 0 <= j < |s|
  {
    IsDigit(s[j]) && j + 1 < |s|
  }

  /** The first index at or after `i` holding a cut digit, or `|s|` when there is none. */
  function FirstCutDigit(s: string, i: nat): (j: nat)
    requires i <= |s|
    ensures i <= j <= |s|
    ensures j < |s| ==> IsCutDigit(s, j)
    ensures forall k :: i <= k < j ==> !IsCutDigit(s, k)
    decreases |s| - i
  {
    if i == |s| then |s|
    else if IsCutDigit(s, i) then i
    else FirstCutDigit(s, i + 1)
  }

  /** The start of the maximal whitespace run that ends just before index `j`. */
  function SpaceRunStart(s: string, j: nat): (r: nat)
    requires j <= |s|
    ensures r <= j
    ensures AllSpace(s[r..j])
    ensures r == 0 || !IsSpace(s[r - 1])
  {
    if j > 0 && IsSpace(s[j - 1]) then
      var r := SpaceRunStart(s, j - 1);
      assert s[r..j] == s[r..j - 1] + [s[j - 1]];
      r
    else j
  }

  /** Where the label ends: `|s|` when no cut digit exists. */
  function CutPoint(s: string): nat {
    var j := FirstCutDigit(s, 0);
    if j == |s| then |s| else SpaceRunStart(s, j)
  }

  /** The label of a proxy name. */
  function Label(name: string): string {
    name[..CutPoint(name)]
  }

  // ---------------------------------------------------------------------------
  // Agreement with the regular expression
  // ---------------------------------------------------------------------------

  /** `\s*\d.+` matches starting at index `p`: a (possibly empty) whitespace run
      from `p`, then a digit, then at least one character that is not a line break. */
  ghost predicate MatchesAt(s: string, p: int) {
    0 <= p && exists q :: p <= q && q + 1 < |s| && AllSpace(s[p..q]) && IsDigit(s[q]) && s[q + 1] != '\n'
  }

  /** `\s*\d.+` matches the whole of `s[p..e]`: a whitespace run from `p`, a
      digit, then one or more characters up to `e`, none of them a line break. */
  ghost predicate MatchSpans(s: string, p: int, e: int) {
    0 <= p && e <= |s| &&
    exists q :: p <= q && q + 1 < e && AllSpace(s[p..q]) && IsDigit(s[q]) &&
      forall k :: q < k < e ==> s[k] != '\n'
  }

  /** For a name without line breaks, `Label` is what `re.sub` leaves: the name
      up to the leftmost match of `\s*\d.+`, which then runs to the end of the
      name (so it is the only match), or the whole name when the pattern
      matches nowhere. */
  lemma LabelIsLeftmostMatch(s: string)
    requires '\n' !in s
    ensures forall p :: 0 <= p < |Label(s)| ==> !MatchesAt(s, p)
    ensures Label(s) != s ==> MatchesAt(s, |Label(s)|) && MatchSpans(s, |Label(s)|, |s|)
    ensures Label(s) == s <==> forall p :: 0 <= p < |s| ==> !MatchesAt(s, p)
  {
    var j := FirstCutDigit(s, 0);
    var c := CutPoint(s);
    assert |Label(s)| == c;
    forall p | 0 <= p < c ensures !MatchesAt(s, p) {
      forall q | p <= q && q + 1 < |s| && AllSpace(s[p..q]) ensures !IsDigit(s[q]) {
        // before the first cut digit no digit is followed by a character; from it on,
        // the run [p, q) would have to take in s[c - 1], which is not whitespace
        if q < j {
          assert !IsCutDigit(s, q);
        }
      }
    }
    if c < |s| {
      assert s[j + 1] in s;
      assert c <= j && j + 1 < |s| && AllSpace(s[c..j]) && IsDigit(s[j]) && s[j + 1] != '\n';
      assert MatchesAt(s, c);
      forall k | j < k < |s| ensures s[k] != '\n' {
        assert s[k] in s;
      }
      assert MatchSpans(s, c, |s|);
    }
    assert Label(s) == s <==> c == |s|;
  }

  // ---------------------------------------------------------------------------
  // Shape of a label
  // ---------------------------------------------------------------------------

  /** The label is a prefix of the name. No digit followed by another character
      means the label is the whole name (so "HK 1" keeps its "1"); otherwise the
      name is cut at the start of the whitespace run before the first such digit. */
  lemma LabelShape(s: string)
    ensures Label(s) <= s
    ensures (forall k :: 0 <= k < |s| ==> !IsCutDigit(s, k)) ==> Label(s) == s
    ensures forall j :: 0 <= j < |s| && IsCutDigit(s, j) && (forall k :: 0 <= k < j ==> !IsCutDigit(s, k)) ==>
      Label(s) == s[..SpaceRunStart(s, j)]
  {
    var j := FirstCutDigit(s, 0);
    forall j' | 0 <= j' < |s| && IsCutDigit(s, j') && (forall k :: 0 <= k < j' ==> !IsCutDigit(s, k))
      ensures j' == j
    {
    }
  }

  /** A label holds no digit except possibly as its last character. When a cut
      happened the label holds no digit at all and does not end in whitespace. */
  lemma LabelContent(s: string)
    ensures var l := Label(s); forall i :: 0 <= i < |l| - 1 ==> !IsDigit(l[i])
    ensures var l := Label(s); l != s ==> forall i :: 0 <= i < |l| ==> !IsDigit(l[i])
    ensures var l := Label(s); l != s && l != [] ==> !IsSpace(l[|l| - 1])
  {
    var l := Label(s);
    var j := FirstCutDigit(s, 0);
    forall i | 0 <= i < |l| - 1 ensures !IsDigit(l[i]) {
      assert !IsCutDigit(s, i);
    }
    if l != s {
      forall i | 0 <= i < |l| ensures !IsDigit(l[i]) {
        assert !IsCutDigit(s, i);
      }
    }
  }

  /** Deriving the label of a label changes nothing. */
  lemma LabelIdempotent(s: string)
    ensures Label(Label(s)) == Label(s)
  {
    var l := Label(s);
    LabelContent(s);
    if l != s {
      assert FirstCutDigit(l, 0) == |l|;
    } else {
      assert l[..|l|] == l;
    }
  }

  lemma LabelExamples()
    ensures Label("HK 12") == "HK"
    ensures Label("HK 1") == "HK 1"
    ensures Label("US 01 Premium") == "US"
    ensures Label("Tokyo") == "Tokyo"
  {
    var a := "HK 12";
    assert FirstCutDigit(a, 0) == 3 by {
      assert !IsCutDigit(a, 0) && !IsCutDigit(a, 1) && !IsCutDigit(a, 2) && IsCutDigit(a, 3);
    }
    assert SpaceRunStart(a, 3) == 2;
    var b := "HK 1";
    assert FirstCutDigit(b, 0) == 4 by {
      assert !IsCutDigit(b, 0) && !IsCutDigit(b, 1) && !IsCutDigit(b, 2) && !IsCutDigit(b, 3);
    }
    var c := "US 01 Premium";
    assert FirstCutDigit(c, 0) == 3 by {
      assert !IsCutDigit(c, 0) && !IsCutDigit(c, 1) && !IsCutDigit(c, 2) && IsCutDigit(c, 3);
    }
    assert SpaceRunStart(c, 3) == 2;
    var d := "Tokyo";
    assert FirstCutDigit(d, 0) == 5 by {
      assert forall k :: 0 <= k < 5 ==> !IsCutDigit(d, k);
    }
  }
}
