/** URL-safe slugs: what is acceptable, and how one is derived from a display name. */
module Slugs {

  predicate IsAlnum(c: char) {
    'a' <= c <= 'z' || '0' <= c <= '9'
  }

  predicate ValidSlug(s: string) {
    && 3 <= |s| <= 64
    && IsAlnum(s[0]) && IsAlnum(s[|s| - 1])
    && forall c <- s :: IsAlnum(c) || c == '-'
  }

  /** Lower-casing as far as it can produce a letter of the slug alphabet: ASCII capitals, the
      dotted capital I and the Kelvin sign. Every other character stays outside the alphabet. */
  function Lower(c: char): char {
    if 'A' <= c <= 'Z' then (c as int + 32) as char
    else if c == '\U{0130}' then 'i'
    else if c == '\U{212A}' then 'k'
    else c
  }

  function LowerAll(s: string): string {
    seq(|s|, i requires 0 <= i < |s| => Lower(s[i]))
  }

  // ---------------------------------------------------------------------
  // The derivation

  /** Runs of other characters become one hyphen; `lastHyphen` suppresses it. */
  function Collapse(s: string, lastHyphen: bool): string {
    if s == "" then ""
    else if IsAlnum(s[0]) then [s[0]] + Collapse(s[1..], false)
    else (if lastHyphen then "" else "-") + Collapse(s[1..], true)
  }

  function TrimLeft(s: string): string {
    if s != "" && s[0] == '-' then TrimLeft(s[1..]) else s
  }

  function TrimRight(s: string): string {
    if s != "" && s[|s| - 1] == '-' then TrimRight(s[..|s| - 1]) else s
  }

  function Trim(s: string): string {
    TrimRight(TrimLeft(s))
  }

  function Cut(s: string): string {
    if |s| > 64 then Trim(s[..64]) else s
  }

  /** At least three characters: "customer" for nothing, zeros behind one or two. */
  function Pad(s: string): string
    decreases 3 - |s|
  {
    if |s| >= 3 then s else if s == "" then "customer" else Pad(s + "0")
  }

  function Derive(name: string): string {
    Pad(Cut(Trim(Collapse(LowerAll(name), true))))
  }

  // ---------------------------------------------------------------------
  // What the text between trimming and padding is: the alphanumeric words, hyphenated

  ghost predicate Word(w: string) {
    w != "" && forall i :: 0 <= i < |w| ==> IsAlnum(w[i])
  }

  function RunLength(s: string): (n: nat)
    ensures n <= |s| && (n < |s| ==> !IsAlnum(s[n]))
    ensures s != "" && IsAlnum(s[0]) ==> Word(s[..n])
  {
    if s == "" || !IsAlnum(s[0]) then 0 else
    1 + RunLength(s[1..])
  }

  /** The maximal runs of alphanumeric characters. */
  function Words(s: string): (ws: seq<string>)
    ensures forall w <- ws :: Word(w)
    decreases |s|
  {
    if s == "" then [] else
    if !IsAlnum(s[0]) then Words(s[1..])
    else var n := RunLength(s); [s[..n]] + Words(s[n..])
  }

  function Hyphenate(ws: seq<string>): string {
    if ws == [] then "" else if |ws| == 1 then ws[0] else ws[0] + "-" + Hyphenate(ws[1..])
  }

  lemma {:induction false} TrimRightConcat(a: string, b: string)
    ensures TrimRight(a + b) == if TrimRight(b) == "" then TrimRight(a) else a + TrimRight(b)
    decreases |b|
  {
    if b == "" {
      assert a + b == a;
    } else if b[|b| - 1] == '-' {
      assert (a + b)[..|a + b| - 1] == a + b[..|b| - 1];
      TrimRightConcat(a, b[..|b| - 1]);
    }
  }

  lemma {:induction false} CollapseRun(w: string, r: string, lastHyphen: bool)
    requires Word(w)
    ensures Collapse(w + r, lastHyphen) == w + Collapse(r, false)
    decreases |w|
  {
    assert (w + r)[1..] == w[1..] + r;
    if |w| > 1 {
      CollapseRun(w[1..], r, false);
      assert w == [w[0]] + w[1..];
    } else {
      assert w[1..] + r == r;
    }
  }

  /** A word before what is left of the text after it. */
  lemma TrimWord(w: string, rest: string)
    requires Word(w)
    ensures TrimRight(w) == w
    ensures TrimRight(w + "-" + rest) == if TrimRight(rest) == "" then w else w + "-" + TrimRight(rest)
  {
    TrimRightConcat(w + "-", rest);
    assert (w + "-")[..|w|] == w;
  }

  lemma HyphenateEmpty(ws: seq<string>)
    requires forall w <- ws :: Word(w)
    ensures Hyphenate(ws) == "" <==> ws == []
  {
    if ws != [] { assert ws[0] in ws; }
  }

  lemma {:induction false} CollapseWords(s: string)
    ensures TrimRight(Collapse(s, true)) == Hyphenate(Words(s))
    decreases |s|
  {
    hide TrimRight;
    if s == "" {
      TrimRightPrefix("");
    } else if !IsAlnum(s[0]) {
      CollapseWords(s[1..]);
      assert "" + Collapse(s[1..], true) == Collapse(s[1..], true);
    } else {
      WordFirst(s);
    }
  }

  lemma {:induction false} WordFirst(s: string)
    requires s != "" && IsAlnum(s[0])
    ensures TrimRight(Collapse(s, true)) == Hyphenate(Words(s))
    decreases |s|, 0
  {
    hide TrimRight;
    var n := RunLength(s);
    var w, r := s[..n], s[n..];
    assert s == w + r;
    CollapseRun(w, r, true);
    assert Words(s) == [w] + Words(r);
    if r == "" {
      assert w + "" == w;
      TrimWord(w, "");
    } else {
      var rest := Collapse(r[1..], true);
      CollapseWords(r[1..]);
      assert Collapse(r, false) == "-" + rest;
      assert w + ("-" + rest) == w + "-" + rest;
      TrimWord(w, rest);
      HyphenateEmpty(Words(r));
      assert ([w] + Words(r))[1..] == Words(r);
    }
  }

  lemma {:induction false} CollapseStart(s: string)
    ensures var t := Collapse(s, true); t == "" || t[0] != '-'
  {
    if s != "" && !IsAlnum(s[0]) {
      CollapseStart(s[1..]);
    }
  }

  /** The derived slug is the name's lower-cased alphanumeric words, hyphenated, cut and padded. */
  lemma DeriveWords(name: string)
    ensures Derive(name) == Pad(Cut(Hyphenate(Words(LowerAll(name)))))
  {
    CollapseStart(LowerAll(name));
    CollapseWords(LowerAll(name));
  }

  // ---------------------------------------------------------------------
  // Every derived slug is valid, and the derivation is idempotent

  /** Slug characters, no hyphen at either end, no two hyphens in a row. */
  ghost predicate Tidy(s: string) {
    && (forall c <- s :: IsAlnum(c) || c == '-')
    && (s != "" ==> s[0] != '-' && s[|s| - 1] != '-')
    && NoDouble(s)
  }

  ghost predicate NoDouble(s: string) {
    forall i :: 0 <= i < |s| - 1 ==> s[i] != '-' || s[i + 1] != '-'
  }

  lemma JoinTidy(w: string, rest: string)
    requires Word(w)
    ensures Tidy(w)
    ensures Tidy(rest) && rest != "" ==> Tidy(w + "-" + rest)
  {
    var s := w + "-" + rest;
    if Tidy(rest) && rest != "" {
      assert s[|s| - 1] == rest[|rest| - 1];
      forall c <- s ensures IsAlnum(c) || c == '-' {
        assert c in w || c == '-' || c in rest;
      }
      forall i | 0 <= i < |s| - 1 ensures s[i] != '-' || s[i + 1] != '-' {
        if i > |w| { assert s[i] == rest[i - |w| - 1] && s[i + 1] == rest[i - |w|]; }
      }
    }
  }

  lemma {:induction false} HyphenateTidy(ws: seq<string>)
    requires forall w <- ws :: Word(w)
    ensures Tidy(Hyphenate(ws))
    decreases |ws|
  {
    hide Tidy, Word;
    if ws == [] {
      assert Tidy("") by { EmptyTidy(); }
    } else {
      var rest := Hyphenate(ws[1..]);
      assert forall w <- ws[1..] :: w in ws;
      HyphenateTidy(ws[1..]);
      HyphenateEmpty(ws[1..]);
      JoinTidy(ws[0], rest);
    }
  }

  lemma EmptyTidy()
    ensures Tidy("")
  {
  }

  lemma {:induction false} TrimRightPrefix(s: string)
    ensures TrimRight(s) <= s && (TrimRight(s) != "" ==> TrimRight(s)[|TrimRight(s)| - 1] != '-')
    ensures NoDouble(s) ==> |TrimRight(s)| >= |s| - 1
  {
    if s != "" && s[|s| - 1] == '-' {
      var t := s[..|s| - 1];
      TrimRightPrefix(t);
      if NoDouble(s) && t != "" {
        assert s[|s| - 2] == t[|t| - 1];
        assert TrimRight(t) == t;
      }
    }
  }

  lemma CutTidy(s: string)
    requires Tidy(s)
    ensures Tidy(Cut(s)) && |Cut(s)| <= 64 && (|s| >= 3 ==> |Cut(s)| >= 3)
  {
    if |s| > 64 {
      var t := s[..64];
      assert NoDouble(t) && TrimLeft(t) == t;
      TrimRightPrefix(t);
      var u := TrimRight(t);
      assert forall i :: 0 <= i < |u| ==> u[i] == s[i];
    }
  }

  lemma PadValid(s: string)
    requires Tidy(s) && |s| <= 64
    ensures ValidSlug(Pad(s)) && NoDouble(Pad(s))
  {
    if s == "" {
      assert Pad(s) == "customer";
    } else if |s| == 1 {
      assert Pad(s) == Pad(s + "0") == s + "0" + "0";
    } else if |s| == 2 {
      assert Pad(s) == s + "0";
    }
  }

  lemma DeriveValid(name: string)
    ensures ValidSlug(Derive(name)) && NoDouble(Derive(name))
  {
    DeriveWords(name);
    var s := Hyphenate(Words(LowerAll(name)));
    HyphenateTidy(Words(LowerAll(name)));
    CutTidy(s);
    PadValid(Cut(s));
  }

  lemma {:induction false} CollapseTidy(s: string, lastHyphen: bool)
    requires (forall c <- s :: IsAlnum(c) || c == '-') && NoDouble(s)
    requires lastHyphen && s != "" ==> s[0] != '-'
    ensures Collapse(s, lastHyphen) == s
    decreases |s|
  {
    if s != "" {
      assert forall i :: 0 <= i < |s| - 1 ==> s[1..][i] == s[i + 1];
      CollapseTidy(s[1..], s[0] == '-');
      assert s == [s[0]] + s[1..];
    }
  }

  lemma LowerFixed(s: string)
    requires forall c <- s :: IsAlnum(c) || c == '-'
    ensures LowerAll(s) == s
  {
    forall i | 0 <= i < |s| ensures Lower(s[i]) == s[i] {
      assert s[i] in s;
    }
  }

  /** Exactly the valid slugs without a double hyphen are their own derivation. */
  lemma DeriveFixed(s: string)
    ensures Derive(s) == s <==> ValidSlug(s) && NoDouble(s)
  {
    hide Collapse, LowerAll, NoDouble;
    DeriveValid(s);
    if ValidSlug(s) && NoDouble(s) {
      LowerFixed(s);
      CollapseTidy(s, true);
      assert Trim(s) == s;
    }
  }

  lemma DeriveIdempotent(name: string)
    ensures Derive(Derive(name)) == Derive(name)
  {
    DeriveValid(name);
    DeriveFixed(Derive(name));
  }

  /** A valid slug the derivation does not leave alone. */
  lemma DoubleHyphenCollapses()
    ensures ValidSlug("a--b") && Derive("a--b") == "a-b"
  {
    assert LowerAll("a--b") == "a--b";
    assert "a--b"[1..] == "--b" && "--b"[1..] == "-b" && "-b"[1..] == "b" && "b"[1..] == "";
    assert Collapse("b", true) == "b";
    assert Collapse("-b", true) == "b";
    assert Collapse("--b", false) == "-b";
    assert Collapse("a--b", true) == "a-b";
  }

  // ---------------------------------------------------------------------
  // The code's loop

  lemma CollapseOne(b: string, text: string, i: nat, lastHyphen: bool)
    requires i < |text|
    ensures var piece := if IsAlnum(text[i]) then [text[i]] else if lastHyphen then "" else "-";
            b + Collapse(text[i..], lastHyphen) == (b + piece) + Collapse(text[i + 1..], !IsAlnum(text[i]))
  {
    assert text[i..][1..] == text[i + 1..];
  }

  method CollapseText(text: string) returns (b: string)
    ensures b == Collapse(text, true)
  {
    hide Collapse;
    var lastHyphen := true;
    b := "";
    assert text[0..] == text;
    for i := 0 to |text|
      invariant Collapse(text, true) == b + Collapse(text[i..], lastHyphen)
    {
      CollapseOne(b, text, i, lastHyphen);
      var c := text[i];
      if IsAlnum(c) {
        b := b + [c];
        lastHyphen := false;
      } else if !lastHyphen {
        b := b + ['-'];
        lastHyphen := true;
      } else {
        assert b + "" == b;
      }
    }
    assert text[|text|..] == "";
    CollapseNone(lastHyphen);
  }

  lemma CollapseNone(lastHyphen: bool)
    ensures Collapse("", lastHyphen) == ""
  {
  }

  method PadText(text: string) returns (s: string)
    ensures s == Pad(text)
  {
    s := text;
    while |s| < 3
      invariant Pad(s) == Pad(text)
      decreases 3 - |s|
    {
      if s == "" {
        s := "customer";
        break;
      }
      s := s + "0";
    }
  }

  method DeriveSlug(name: string) returns (s: string)
    ensures s == Derive(name)
  {
    hide Collapse, Pad, Trim, LowerAll;
    var b := CollapseText(LowerAll(name));
    s := Trim(b);
    if |s| > 64 {
      s := Trim(s[..64]);
    }
    s := PadText(s);
  }
}
