/** Host names as text and as dot-separated labels. */
module Text {
  function LowerChar(c: char): char {
    if 'A' <= c <= 'Z' then c - 'A' + 'a' else c
  }

  function Lower(s: string): (r: string)
    ensures |r| == |s|
    ensures forall i :: 0 <= i < |s| ==> r[i] == LowerChar(s[i])
  {
    seq(|s|, i requires 0 <= i < |s| => LowerChar(s[i]))
  }

  predicate HasSuffix<T(==)>(s: seq<T>, t: seq<T>) {
    |t| <= |s| && s[|s| - |t|..] == t
  }

  function TrimSuffixDot(s: string): string {
    if HasSuffix(s, ".") then s[..|s| - 1] else s
  }

  function TrimPrefixStar(s: string): string {
    if "*." <= s then s[2..] else s
  }

  lemma TrimsBack(s: string)
    ensures TrimPrefixStar("*." + s) == s && TrimSuffixDot(s + ".") == s
    ensures !("*." <= s) ==> TrimPrefixStar(s) == s
    ensures !HasSuffix(s, ".") ==> TrimSuffixDot(s) == s
  {
    assert ("*." + s)[2..] == s;
  }

  const UPPER := "ABCDEFGHIJKLMNOPQRSTUVWXYZ"
  const LOWER := "abcdefghijklmnopqrstuvwxyz"

  /** Capital letters become small ones and nothing else changes. */
  lemma LowerLetters(c: char)
    ensures forall i :: 0 <= i < 26 ==> LowerChar(UPPER[i]) == LOWER[i]
    ensures c !in UPPER ==> LowerChar(c) == c
  {
    if 'A' <= c <= 'Z' { assert UPPER[c as int - 'A' as int] == c; }
  }

  lemma LowerTrims(s: string)
    ensures Lower(TrimSuffixDot(s)) == TrimSuffixDot(Lower(s))
  {
  }

  // ---- labels ----------------------------------------------------------------

  lemma Assoc<T>(a: seq<T>, b: seq<T>, c: seq<T>)
    ensures a + b + c == a + (b + c)
  {
  }

  /** Puts a character before the first label. */
  function Glue(c: char, ls: seq<string>): (r: seq<string>)
    requires |ls| >= 1
    ensures |r| == |ls|
  {
    [[c] + ls[0]] + ls[1..]
  }

  /** The dot-separated labels of a name. */
  function Labels(s: string): (ls: seq<string>)
    ensures |ls| >= 1
  {
    if s == "" then [""]
    else if s[0] == '.' then [""] + Labels(s[1..])
    else Glue(s[0], Labels(s[1..]))
  }

  function Dotted(ls: seq<string>): string
    requires |ls| >= 1
  {
    if |ls| == 1 then ls[0] else ls[0] + ("." + Dotted(ls[1..]))
  }

  lemma GlueRest(c: char, ls: seq<string>)
    requires |ls| >= 1
    ensures Glue(c, ls)[0] == [c] + ls[0] && Glue(c, ls)[1..] == ls[1..]
  {
  }

  lemma DottedGlue(c: char, ls: seq<string>)
    requires |ls| >= 1
    ensures Dotted(Glue(c, ls)) == [c] + Dotted(ls)
  {
    if |ls| > 1 {
      GlueRest(c, ls);
      Assoc([c], ls[0], "." + Dotted(ls[1..]));
    }
  }

  lemma {:induction false} DottedLabels(s: string)
    ensures Dotted(Labels(s)) == s
    decreases |s|
  {
    hide Glue;
    if s != "" {
      var rest := Labels(s[1..]);
      DottedLabels(s[1..]);
      DottedGlue(s[0], rest);
      if s[0] == '.' {
        assert ([""] + rest)[1..] == rest;
      }
    }
  }

  lemma GlueAppend(c: char, a: seq<string>, b: seq<string>)
    requires |a| >= 1
    ensures Glue(c, a + b) == Glue(c, a) + b
  {
    assert (a + b)[1..] == a[1..] + b;
  }

  lemma {:induction false} LabelsAppend(x: string, y: string)
    ensures Labels(x + "." + y) == Labels(x) + Labels(y)
    decreases |x|
  {
    hide Glue;
    var s := x + "." + y;
    if x == "" {
      assert s[0] == '.' && s[1..] == y;
    } else {
      LabelsAppend(x[1..], y);
      assert s[0] == x[0] && s[1..] == x[1..] + "." + y;
      GlueAppend(x[0], Labels(x[1..]), Labels(y));
      assert [""] + (Labels(x[1..]) + Labels(y)) == [""] + Labels(x[1..]) + Labels(y);
    }
  }

  lemma {:induction false} DottedAppend(a: seq<string>, b: seq<string>)
    requires |a| >= 1 && |b| >= 1
    ensures Dotted(a + b) == Dotted(a) + ("." + Dotted(b))
    decreases |a|
  {
    if |a| == 1 {
      assert (a + b)[1..] == b;
    } else {
      var rest, end := Dotted(a[1..]), "." + Dotted(b);
      DottedAppend(a[1..], b);
      assert (a + b)[1..] == a[1..] + b;
      Assoc(a[0], "." + rest, end);
      Assoc(".", rest, end);
    }
  }

  lemma SuffixGivesLabelSuffix(h: string, base: string)
    requires HasSuffix(h, "." + base)
    ensures HasSuffix(Labels(h), Labels(base))
  {
    hide Labels;
    var x := h[..|h| - |base| - 1];
    assert h == x + ("." + base);
    Assoc(x, ".", base);
    LabelsAppend(x, base);
    assert (Labels(x) + Labels(base))[|Labels(x)|..] == Labels(base);
  }

  lemma LabelSuffixGivesSuffix(h: string, base: string)
    requires HasSuffix(Labels(h), Labels(base))
    ensures h == base || HasSuffix(h, "." + base)
  {
    hide Labels, Dotted;
    var pre := Labels(h)[..|Labels(h)| - |Labels(base)|];
    assert Labels(h) == pre + Labels(base);
    DottedLabels(h);
    DottedLabels(base);
    if pre == [] {
      assert pre + Labels(base) == Labels(base);
    } else {
      DottedAppend(pre, Labels(base));
      assert (Dotted(pre) + ("." + base))[|Dotted(pre)|..] == "." + base;
    }
  }

  /** A name equals a base or ends in "." + base exactly when its last labels are the base's. */
  lemma {:induction false} SuffixIsLabelSuffix(h: string, base: string)
    ensures h == base || HasSuffix(h, "." + base) <==> HasSuffix(Labels(h), Labels(base))
  {
    if HasSuffix(h, "." + base) { SuffixGivesLabelSuffix(h, base); }
    if HasSuffix(Labels(h), Labels(base)) { LabelSuffixGivesSuffix(h, base); }
  }
}
