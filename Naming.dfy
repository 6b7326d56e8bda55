/**
 The per-label counter of `generate_name` (app.py lines 20-24): a dictionary
 from label to the number of names handed out for it, created empty for each
 request, and the display names `"<label> <count:03>"` it produces.
 */
module Naming {
  import opened Text

  /** The count recorded for `lbl`; a label never seen counts as 0. */
  function CountOf(counts: map<string, nat>, lbl: string): nat {
    if lbl in counts then counts[lbl] else 0
  }

  /** `f"{lbl} {count:03}"`. */
  function DisplayName(lbl: string, count: nat): string {
    lbl + " " + ZeroPad3(count)
  }

  /** The character `k` places before the end of `s`. */
  function FromEnd(s: string, k: nat): char
    requires k < |s|
  {
    s[|s| - 1 - k]
  }

  /** In `lbl + " " + digits` the last `|digits|` characters are digits and the one before them is not. */
  lemma DigitTail(lbl: string, digits: string)
    requires AllDigits(digits)
    ensures var s := lbl + " " + digits;
      (forall k :: 0 <= k < |digits| ==> IsDigit(FromEnd(s, k))) && !IsDigit(FromEnd(s, |digits|))
  {
    var s := lbl + " " + digits;
    forall k | 0 <= k < |digits| ensures IsDigit(FromEnd(s, k)) {
      assert FromEnd(s, k) == digits[|digits| - 1 - k];
    }
    assert FromEnd(s, |digits|) == ' ';
  }

  /** A display name determines both its label and its count, so two names are
      equal only when they come from the same label and the same count. The
      digits after the last space cannot absorb that space, which tells the two
      parts apart. */
  lemma DisplayNameInjective(l1: string, n1: nat, l2: string, n2: nat)
    requires DisplayName(l1, n1) == DisplayName(l2, n2)
    ensures l1 == l2 && n1 == n2
  {
    var p1, p2 := ZeroPad3(n1), ZeroPad3(n2);
    var s := DisplayName(l1, n1);
    ZeroPad3Spec(n1);
    ZeroPad3Spec(n2);
    DigitTail(l1, p1);
    DigitTail(l2, p2);
    // the shorter digit run would have to cover the space in front of the longer one
    assert |p1| == |p2|;
    assert l1 == s[..|l1|] == l2;
    assert p1 == s[|l1| + 1..] == p2;
    ZeroPad3Injective(n1, n2);
  }

  /** The first name handed out for a label ends in " 001". */
  lemma FirstDisplayName(lbl: string)
    ensures DisplayName(lbl, 1) == lbl + " 001"
  {
    ZeroPad3Examples();
  }

  /** The `label_count` dictionary, shared by every call of `generate_name`
      made while serving one request. */
  class LabelCount {
    var counts: map<string, nat>

    /** `label_count = {}`. */
    constructor ()
      ensures counts == map[]
    {
      counts := map[];
    }

    /** `generate_name(label, label_count)`: raises the count of `lbl` by one,
        starting from 0 for a label not yet seen, leaves every other label's
        count as it was, and returns the display name with the new count. */
    method GenerateName(lbl: string) returns (name: string)
      modifies this
      ensures counts == old(counts)[lbl := CountOf(old(counts), lbl) + 1]
      ensures name == DisplayName(lbl, CountOf(old(counts), lbl) + 1)
    {
      if lbl !in counts {
        counts := counts[lbl := 0];
      }
      counts := counts[lbl := counts[lbl] + 1];
      name := lbl + " " + ZeroPad3(counts[lbl]);
    }
  }
}
