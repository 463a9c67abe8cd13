/** The kebab-case name derivation (utils/strings.go): the default flag name
    for a configuration field. Every maximal run of upper-case ASCII letters
    is lower-cased and preceded by `-`; a run of two or more letters gets a
    second `-` before its last letter (the start of the next word); finally
    one leading `-` is dropped. */
module Kebab {
  import opened Text

  /** The length of the maximal run of upper-case letters at the front of `s`. */
  function UpperRun(s: string): (n: nat)
    ensures n <= |s|
    ensures forall i :: 0 <= i < n ==> IsUpper(s[i])
    ensures n < |s| ==> !IsUpper(s[n])
  {
    if s == [] || !IsUpper(s[0]) then 0 else 1 + UpperRun(s[1..])
  }

  /** The replacement of one run (the regexp callback). */
  function RenderRun(run: string): (r: string)
    requires run != []
    ensures |r| > |run| && r[0] == '-'
  {
    var n := |run|;
    "-" + LowerAll(run[..n - 1]) + (if n >= 2 then "-" else "") + [Lower(run[n - 1])]
  }

  /** The regexp replacement of every run of `[A-Z]+`. */
  function ReplaceRuns(s: string): (r: string)
    decreases |s|
  {
    if s == [] then []
    else if IsUpper(s[0]) then
      var n := UpperRun(s);
      RenderRun(s[..n]) + ReplaceRuns(s[n..])
    else [s[0]] + ReplaceRuns(s[1..])
  }

  /** `ToKebab`. Go indexes the first byte of the intermediate string, so an
      empty name would panic; field names are never empty. */
  function ToKebab(s: string): (r: string)
    requires s != []
    ensures NoUpper(r)
  {
    ReplaceRunsLower(s);
    var keb := ReplaceRuns(s);
    if keb[0] == '-' then keb[1..] else keb
  }

  /** A rendered run is lower case and longer than the run. */
  lemma RenderRunLower(run: string)
    requires run != []
    ensures |RenderRun(run)| > |run| && NoUpper(RenderRun(run))
  {
  }

  /** The replacement leaves no upper-case letter and never shortens. */
  lemma {:induction false} ReplaceRunsLower(s: string)
    ensures NoUpper(ReplaceRuns(s)) && |ReplaceRuns(s)| >= |s|
    decreases |s|
  {
    if s != [] {
      if IsUpper(s[0]) {
        var n := UpperRun(s);
        RenderRunLower(s[..n]);
        ReplaceRunsLower(s[n..]);
      } else {
        ReplaceRunsLower(s[1..]);
      }
    }
  }

  /** The derived name never contains an upper-case ASCII letter. */
  lemma KebabHasNoUpper(s: string)
    requires s != []
    ensures NoUpper(ToKebab(s))
  {
    ReplaceRunsLower(s);
  }

  /** A name without upper-case letters is only changed by the dropping of
      a leading `-`. */
  lemma {:induction false} ReplaceRunsIdentity(s: string)
    requires NoUpper(s)
    ensures ReplaceRuns(s) == s
    decreases |s|
  {
    if s != [] {
      ReplaceRunsIdentity(s[1..]);
    }
  }

  lemma KebabIdentity(s: string)
    requires s != [] && NoUpper(s) && s[0] != '-'
    ensures ToKebab(s) == s
  {
    ReplaceRunsIdentity(s);
  }

  /** The characters other than `-`. */
  function Undash(s: string): string
  {
    if s == [] then [] else DashFree(s[0]) + Undash(s[1..])
  }

  function DashFree(c: char): string
  {
    if c == '-' then [] else [c]
  }

  lemma {:induction false} UndashAppend(a: string, b: string)
    ensures Undash(a + b) == Undash(a) + Undash(b)
    decreases |a|
  {
    if a != [] {
      var ab := a + b;
      assert ab[0] == a[0];
      assert ab[1..] == a[1..] + b;
      UndashAppend(a[1..], b);
      calc {
        Undash(ab);
        DashFree(a[0]) + Undash(a[1..] + b);
        DashFree(a[0]) + (Undash(a[1..]) + Undash(b));
        (DashFree(a[0]) + Undash(a[1..])) + Undash(b);
        Undash(a) + Undash(b);
      }
    } else {
      assert a + b == b;
    }
  }

  lemma LowerAllAppend(a: string, b: string)
    ensures LowerAll(a + b) == LowerAll(a) + LowerAll(b)
  {
  }

  lemma UndashDash(x: string)
    ensures Undash("-" + x) == Undash(x)
  {
    UndashAppend("-", x);
  }

  /** Without its dashes, a rendered run is its lower-cased letters. */
  lemma RenderRunParts(run: string)
    requires run != []
    ensures Undash(RenderRun(run)) == Undash(LowerAll(run[..|run| - 1])) + Undash([Lower(run[|run| - 1])])
  {
    var n := |run|;
    var dash: string := "-";
    var init, last := LowerAll(run[..n - 1]), [Lower(run[n - 1])];
    var mid: string := if n >= 2 then dash else [];
    assert RenderRun(run) == ((dash + init) + mid) + last;
    assert Undash(dash) == [] && Undash(mid) == [];
    UndashAppend(dash, init);
    assert [] + Undash(init) == Undash(init);
    UndashAppend(dash + init, mid);
    assert Undash(init) + [] == Undash(init);
    UndashAppend((dash + init) + mid, last);
  }

  lemma LowerAllLast(s: string)
    requires s != []
    ensures LowerAll(s) == LowerAll(s[..|s| - 1]) + [Lower(s[|s| - 1])]
  {
    var n := |s|;
    var r := LowerAll(s[..n - 1]) + [Lower(s[n - 1])];
    assert |r| == n == |LowerAll(s)|;
    forall i | 0 <= i < n
      ensures LowerAll(s)[i] == r[i]
    {
      if i < n - 1 {
        assert r[i] == LowerAll(s[..n - 1])[i];
      }
    }
  }

  lemma RenderRunUndash(run: string)
    requires run != []
    ensures Undash(RenderRun(run)) == Undash(LowerAll(run))
  {
    RenderRunParts(run);
    LowerAllLast(run);
    UndashAppend(LowerAll(run[..|run| - 1]), [Lower(run[|run| - 1])]);
  }

  /** The length of the piece the replacement handles first: a whole run
      of capitals, or a single other character. */
  function HeadLength(s: string): (n: nat)
    requires s != []
    ensures 0 < n <= |s|
  {
    if IsUpper(s[0]) then UpperRun(s) else 1
  }

  function Head(s: string): string
    requires s != []
  {
    if IsUpper(s[0]) then RenderRun(s[..HeadLength(s)]) else s[..1]
  }

  lemma ReplaceRunsHead(s: string)
    requires s != []
    ensures ReplaceRuns(s) == Head(s) + ReplaceRuns(s[HeadLength(s)..])
  {
  }

  lemma HeadUndash(s: string)
    requires s != []
    ensures Undash(Head(s)) == Undash(LowerAll(s[..HeadLength(s)]))
  {
    if IsUpper(s[0]) {
      RenderRunUndash(s[..HeadLength(s)]);
    } else {
      assert LowerAll(s[..1]) == s[..1];
    }
  }

  lemma LowerAllSplit(s: string, n: nat)
    requires n <= |s|
    ensures LowerAll(s) == LowerAll(s[..n]) + LowerAll(s[n..])
  {
    assert s == s[..n] + s[n..];
    LowerAllAppend(s[..n], s[n..]);
  }

  /** The replacement only inserts dashes and lower-cases letters: once the
      dashes are removed it is the lower-cased input without its dashes. */
  lemma {:induction false} ReplaceRunsUndash(s: string)
    ensures Undash(ReplaceRuns(s)) == Undash(LowerAll(s))
    decreases |s|
  {
    if s != [] {
      var n := HeadLength(s);
      var head, tail := Head(s), s[n..];
      ReplaceRunsHead(s);
      UndashAppend(head, ReplaceRuns(tail));
      HeadUndash(s);
      ReplaceRunsUndash(tail);
      LowerAllSplit(s, n);
      UndashAppend(LowerAll(s[..n]), LowerAll(tail));
    }
  }

  lemma KebabUndash(s: string)
    requires s != []
    ensures Undash(ToKebab(s)) == Undash(LowerAll(s))
  {
    ReplaceRunsUndash(s);
    var keb := ReplaceRuns(s);
    if keb[0] == '-' {
      assert keb == [keb[0]] + keb[1..];
      UndashAppend([keb[0]], keb[1..]);
    }
  }

  predicate AllUpper(s: string) { forall i :: 0 <= i < |s| ==> IsUpper(s[i]) }

  /** Text without upper-case letters passes through the replacement. */
  lemma {:induction false} ReplaceRunsLowerPrefix(p: string, rest: string)
    requires NoUpper(p)
    ensures ReplaceRuns(p + rest) == p + ReplaceRuns(rest)
    decreases |p|
  {
    if p != [] {
      assert (p + rest)[0] == p[0];
      assert (p + rest)[1..] == p[1..] + rest;
      ReplaceRunsLowerPrefix(p[1..], rest);
    } else {
      assert p + rest == rest;
    }
  }

  lemma {:induction false} UpperRunOf(run: string, rest: string)
    requires AllUpper(run)
    requires rest == [] || !IsUpper(rest[0])
    ensures UpperRun(run + rest) == |run|
    decreases |run|
  {
    if run == [] {
      assert run + rest == rest;
    } else {
      assert (run + rest)[1..] == run[1..] + rest;
      UpperRunOf(run[1..], rest);
    }
  }

  /** A maximal run of capitals is replaced as one unit. */
  lemma ReplaceRunsRun(run: string, rest: string)
    requires run != [] && AllUpper(run)
    requires rest == [] || !IsUpper(rest[0])
    ensures ReplaceRuns(run + rest) == RenderRun(run) + ReplaceRuns(rest)
  {
    UpperRunOf(run, rest);
    var s := run + rest;
    assert s[..|run|] == run && s[|run|..] == rest;
  }

  /** A capitalised word in lower case. */
  lemma LowerWord(w: string)
    requires |w| >= 2 && IsUpper(w[0]) && NoUpper(w[1..])
    ensures [Lower(w[0])] + w[1..] == LowerAll(w)
  {
    LowerAllIdentity(w[1..]);
  }

  /** A capitalised word (one capital, then at least one non-capital)
      becomes `-` and the word in lower case. */
  lemma ReplaceRunsWord(w: string, rest: string)
    requires |w| >= 2 && IsUpper(w[0]) && NoUpper(w[1..])
    ensures ReplaceRuns(w + rest) == ("-" + LowerAll(w)) + ReplaceRuns(rest)
  {
    var t := w[1..] + rest;
    assert w + rest == [w[0]] + t;
    assert t[0] == w[1];
    ReplaceRunsRun([w[0]], t);
    ReplaceRunsLowerPrefix(w[1..], rest);
    var head := "-" + [Lower(w[0])];
    assert RenderRun([w[0]]) == head;
    ConcatAssoc(head, w[1..], ReplaceRuns(rest));
    LowerWord(w);
    ConcatAssoc("-", [Lower(w[0])], w[1..]);
  }

  /** Proof helper: regrouping a concatenation of three strings, stated as
      a lemma so that a proof can name the one regrouping it needs. */
  lemma ConcatAssoc(a: string, b: string, c: string)
    ensures (a + b) + c == a + (b + c)
  {
  }

  /** The last capitalised word of a name. */
  lemma ReplaceRunsLastWord(w: string)
    requires |w| >= 2 && IsUpper(w[0]) && NoUpper(w[1..])
    ensures ReplaceRuns(w) == "-" + LowerAll(w)
  {
    ReplaceRunsWord(w, []);
    assert w + [] == w;
    assert ReplaceRuns([]) == [];
  }

  /** A name made of capitalised words is its words in lower case joined
      by `-`. */
  lemma KebabWords(a: string, b: string, c: string)
    requires |a| >= 2 && IsUpper(a[0]) && NoUpper(a[1..])
    requires |b| >= 2 && IsUpper(b[0]) && NoUpper(b[1..])
    requires |c| >= 2 && IsUpper(c[0]) && NoUpper(c[1..])
    ensures ToKebab(a + b + c) == LowerAll(a) + ("-" + LowerAll(b)) + ("-" + LowerAll(c))
  {
    var la, lb, lc := LowerAll(a), "-" + LowerAll(b), "-" + LowerAll(c);
    ReplaceRunsLastWord(c);
    ReplaceRunsWord(b, c);
    ReplaceRunsWord(a, b + c);
    assert a + b + c == a + (b + c);
    var keb := ReplaceRuns(a + b + c);
    assert keb == "-" + (la + (lb + lc));
    assert keb[1..] == la + (lb + lc);
  }

  lemma KebabExampleCamel()
    ensures ToKebab("CamelCaseString") == "camel-case-string"
  {
    assert "CamelCaseString" == "Camel" + "Case" + "String";
    CamelWords("Camel", "Case", "String");
  }

  /** Proof helper: the words of the example, kept apart so that the
      solver does not evaluate the whole name at once. */
  lemma CamelWords(a: string, b: string, c: string)
    requires a == "Camel" && b == "Case" && c == "String"
    ensures ToKebab(a + b + c) == "camel-case-string"
  {
    KebabWords(a, b, c);
    CamelLower(a, b, c);
  }

  lemma CamelLower(a: string, b: string, c: string)
    requires a == "Camel" && b == "Case" && c == "String"
    ensures LowerAll(a) + ("-" + LowerAll(b)) + ("-" + LowerAll(c)) == "camel-case-string"
  {
    assert LowerAll(a) == "camel";
    assert "-" + LowerAll(b) == "-case";
    assert "-" + LowerAll(c) == "-string";
  }

  /** An acronym between two words is closed off before the second word:
      the capital that starts that word is not part of the acronym. */
  lemma KebabAcronym(a: string, b: string, c: string)
    requires a != [] && a[0] != '-' && NoUpper(a)
    requires b != [] && AllUpper(b)
    requires |c| >= 2 && IsUpper(c[0]) && NoUpper(c[1..])
    ensures ToKebab(a + b + c) == a + ("-" + LowerAll(b)) + ("-" + LowerAll(c))
  {
    var run, tail := b + [c[0]], c[1..];
    assert b + c == run + tail;
    ReplaceRunsIdentity(tail);
    ReplaceRunsRun(run, tail);
    assert a + b + c == a + (run + tail);
    ReplaceRunsLowerPrefix(a, run + tail);
    assert run[..|run| - 1] == b;
    var lb, lc := "-" + LowerAll(b), "-" + [Lower(c[0])];
    assert RenderRun(run) == ((lb + "-") + [Lower(c[0])]);
    ConcatAssoc(lb, "-", [Lower(c[0])]);
    ConcatAssoc(lb, lc, tail);
    LowerWord(c);
    ConcatAssoc("-", [Lower(c[0])], tail);
    ConcatAssoc(a, lb, lc + tail);
  }

  lemma KebabExampleAcronym()
    ensures ToKebab("receivedHTTPMethod") == "received-http-method"
  {
    assert "receivedHTTPMethod" == "received" + "HTTP" + "Method";
    AcronymWords("received", "HTTP", "Method");
  }

  /** Proof helper: the words of the example, kept apart as above. */
  lemma AcronymWords(a: string, b: string, c: string)
    requires a == "received" && b == "HTTP" && c == "Method"
    ensures ToKebab(a + b + c) == "received-http-method"
  {
    KebabAcronym(a, b, c);
    assert "-" + LowerAll(b) == "-http";
    assert "-" + LowerAll(c) == "-method";
  }
}
