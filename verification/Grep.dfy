/**
 The pattern matcher of grep.c against the language of its patterns.  Strings are C strings without their
 NUL.
 */
module Grep {
  import opened Common

  // ---- patterns ----

  /** x matches itself, or anything if it is a dot; x* matches any number of such characters. */
  datatype Item = One(c: char) | Star(c: char)

  /** A pattern without its ^; end: it has a final $. */
  datatype Pattern = Pattern(items: seq<Item>, end: bool)

  /** A star is looked for before a final $, so that $* is any number of dollars; ^ stands for itself. */
  function Parse(re: string): Pattern {
    if re == "" then Pattern([], false)
    else if |re| > 1 && re[1] == '*' then
      var p := Parse(re[2..]);
      Pattern([Star(re[0])] + p.items, p.end)
    else if re == "$" then Pattern([], true)
    else
      var p := Parse(re[1..]);
      Pattern([One(re[0])] + p.items, p.end)
  }

  // ---- patterns as text ----

  function ShowItem(i: Item): string {
    match i
    case One(c) => [c]
    case Star(c) => [c, '*']
  }

  function ShowItems(items: seq<Item>): string {
    if items == [] then "" else ShowItem(items[0]) + ShowItems(items[1..])
  }

  /** A pattern, without its ^, the way one writes it. */
  function Show(p: Pattern): string {
    ShowItems(p.items) + if p.end then "$" else ""
  }

  /** Item i is a character that can be written as itself where it stands: no star follows that would be taken for
      its own, and it is no $ at the very end. */
  predicate Writable(p: Pattern, i: nat)
    requires i < |p.items|
  {
    p.items[i].One? ==> if i + 1 < |p.items| then p.items[i + 1].c != '*' else p.items[i].c != '$' || p.end
  }

  predicate Plain(p: Pattern) {
    forall i: nat :: i < |p.items| ==> Writable(p, i)
  }

  lemma PlainStep(p: Pattern)
    requires p.items != []
    ensures Plain(p) <==> Writable(p, 0) && Plain(Pattern(p.items[1..], p.end))
  {
    var q := Pattern(p.items[1..], p.end);
    if Plain(p) {
      forall i: nat | i < |q.items|
        ensures Writable(q, i)
      {
        assert Writable(p, i + 1);
      }
    }
    if Writable(p, 0) && Plain(q) {
      forall i: nat | i < |p.items|
        ensures Writable(p, i)
      {
        assert i > 0 ==> Writable(q, i - 1);
      }
    }
  }

  /** Reading what has been written gives the pattern back, exactly if all of its characters can be written. */
  lemma {:induction false} ParseShow(p: Pattern)
    ensures Parse(Show(p)) == p <==> Plain(p)
    decreases |p.items|
  {
    if p.items != [] {
      hide Plain;
      var q := Pattern(p.items[1..], p.end);
      ParseShow(q);
      PlainStep(p);
      ShownMore(p.items[0], q);
      assert p == Pattern([p.items[0]] + q.items, q.end);
      if p.items[0].Star? {
        ParseStar(p.items[0].c, Show(q));
      } else {
        ParseOne(p, q);
      }
    }
  }

  lemma ParseStar(c: char, re: string)
    ensures Parse([c, '*'] + re) == Pattern([Star(c)] + Parse(re).items, Parse(re).end)
  {
    assert ([c, '*'] + re)[2..] == re;
  }

  lemma ParseOne(p: Pattern, q: Pattern)
    requires p.items != [] && p.items[0].One? && q == Pattern(p.items[1..], p.end)
    ensures var c := p.items[0].c;
      if Writable(p, 0) then Parse([c] + Show(q)) == Pattern([One(c)] + Parse(Show(q)).items, Parse(Show(q)).end)
      else Parse([c] + Show(q)).items == [] || Parse([c] + Show(q)).items[0].Star?
  {
    var re := [p.items[0].c] + Show(q);
    assert re[1..] == Show(q);
    assert q.items != [] ==> Show(q)[0] == q.items[0].c;
  }

  /** Writing what has been read gives the text back: the matcher takes every text for exactly one pattern. */
  lemma {:induction false} ShowParse(re: string)
    ensures Show(Parse(re)) == re && Plain(Parse(re))
  {
    ShownBack(re);
    ParseShow(Parse(re));
  }

  lemma {:induction false} ShownBack(re: string)
    ensures Show(Parse(re)) == re
  {
    if re == "" {
    } else if |re| > 1 && re[1] == '*' {
      ShownBack(re[2..]);
      ShownMore(Star(re[0]), Parse(re[2..]));
      assert re == [re[0], '*'] + re[2..];
    } else if re != "$" {
      ShownBack(re[1..]);
      ShownMore(One(re[0]), Parse(re[1..]));
    }
  }

  lemma ShownMore(i: Item, p: Pattern)
    ensures Show(Pattern([i] + p.items, p.end)) == ShowItem(i) + Show(p)
  {
    assert ([i] + p.items)[1..] == p.items;
  }

  // ---- the language ----

  predicate Fits(c: char, x: char) {
    c == '.' || c == x
  }

  predicate AllFit(c: char, w: string) {
    forall i :: 0 <= i < |w| ==> Fits(c, w[i])
  }

  /** The words of a pattern's language. */
  ghost predicate InLang(items: seq<Item>, w: string) {
    if items == [] then w == ""
    else
      match items[0]
      case One(c) => w != "" && Fits(c, w[0]) && InLang(items[1..], w[1..])
      case Star(c) => exists k: nat :: k <= |w| && AllFit(c, w[..k]) && InLang(items[1..], w[k..])
  }

  /** The first n characters of the text are in the language, and they are all of it if the pattern says so. */
  ghost predicate Prefix(p: Pattern, text: string, n: nat) {
    n <= |text| && InLang(p.items, text[..n]) && (p.end ==> n == |text|)
  }

  ghost predicate Matches(p: Pattern, text: string) {
    exists n: nat :: Prefix(p, text, n)
  }

  /** A text matches a starred pattern if the rest matches after some characters that fit. */
  ghost predicate StarMatches(c: char, p: Pattern, text: string) {
    exists k: nat :: k <= |text| && AllFit(c, text[..k]) && Matches(p, text[k..])
  }

  lemma StarStep(c: char, p: Pattern, text: string)
    ensures Matches(Pattern([Star(c)] + p.items, p.end), text) <==> StarMatches(c, p, text)
  {
    var q := Pattern([Star(c)] + p.items, p.end);
    assert q.items[1..] == p.items;
    if Matches(q, text) {
      var n: nat :| Prefix(q, text, n);
      var k: nat :| k <= n && AllFit(c, text[..n][..k]) && InLang(p.items, text[..n][k..]);
      assert text[..n][..k] == text[..k] && text[..n][k..] == text[k..][..n - k];
      assert Prefix(p, text[k..], n - k);
    }
    if StarMatches(c, p, text) {
      var k: nat :| k <= |text| && AllFit(c, text[..k]) && Matches(p, text[k..]);
      var m: nat :| Prefix(p, text[k..], m);
      var n := k + m;
      assert text[..n][..k] == text[..k] && text[..n][k..] == text[k..][..m];
      assert Prefix(q, text, n);
    }
  }

  lemma OneStep(c: char, p: Pattern, text: string)
    ensures Matches(Pattern([One(c)] + p.items, p.end), text) <==>
      text != "" && Fits(c, text[0]) && Matches(p, text[1..])
  {
    var q := Pattern([One(c)] + p.items, p.end);
    assert q.items[1..] == p.items;
    if Matches(q, text) {
      var n: nat :| Prefix(q, text, n);
      assert text[..n][1..] == text[1..][..n - 1];
      assert Prefix(p, text[1..], n - 1);
    }
    if text != "" && Fits(c, text[0]) && Matches(p, text[1..]) {
      var m: nat :| Prefix(p, text[1..], m);
      assert text[..m + 1][1..] == text[1..][..m];
      assert Prefix(q, text, m + 1);
    }
  }

  lemma EmptyStep(text: string)
    ensures Matches(Pattern([], false), text)
    ensures Matches(Pattern([], true), text) <==> text == ""
  {
    assert Prefix(Pattern([], false), text, 0);
    assert text == "" ==> Prefix(Pattern([], true), text, 0);
  }

  // ---- what the language is ----

  function Literals(w: string): (items: seq<Item>)
    ensures |items| == |w| && forall i :: 0 <= i < |w| ==> items[i] == One(w[i])
  {
    if w == "" then [] else Literals(w[..|w| - 1]) + [One(w[|w| - 1])]
  }

  /** Characters stand for themselves, and a dot for every character. */
  lemma {:induction false} LiteralWords(w: string, t: string)
    ensures InLang(Literals(w), t) <==> |t| == |w| && forall i :: 0 <= i < |w| ==> w[i] == '.' || w[i] == t[i]
  {
    if w != "" {
      assert Literals(w)[1..] == Literals(w[1..]);
      if t != "" {
        LiteralWords(w[1..], t[1..]);
      }
    }
  }

  /** A starred character stands for any number of itself, and a starred dot for every text. */
  lemma StarWords(c: char, t: string)
    ensures InLang([Star(c)], t) <==> forall i :: 0 <= i < |t| ==> c == '.' || c == t[i]
  {
    assert t[..|t|] == t && t[|t|..] == "";
    assert [Star(c)][1..] == [];
    if InLang([Star(c)], t) {
      var k: nat :| k <= |t| && AllFit(c, t[..k]) && InLang([], t[k..]);
    }
  }

  ghost predicate Splits(a: seq<Item>, b: seq<Item>, t: string, k: nat) {
    k <= |t| && InLang(a, t[..k]) && InLang(b, t[k..])
  }

  /** Items one after the other stand for texts one after the other. */
  lemma {:induction false} JoinedWords(a: seq<Item>, b: seq<Item>, t: string)
    ensures InLang(a + b, t) <==> exists k: nat :: Splits(a, b, t, k)
    decreases |a|
  {
    if a == [] {
      assert a + b == b;
      assert t[..0] == "" && t[0..] == t;
      assert InLang(b, t) ==> Splits(a, b, t, 0);
    } else if a[0].One? {
      JoinedOne(a, b, t);
    } else {
      JoinedStar(a, b, t);
    }
  }

  lemma {:induction false} JoinedOne(a: seq<Item>, b: seq<Item>, t: string)
    requires a != [] && a[0].One?
    ensures InLang(a + b, t) <==> exists k: nat :: Splits(a, b, t, k)
    decreases |a|, 0
  {
    assert (a + b)[1..] == a[1..] + b;
    if t != "" {
      JoinedWords(a[1..], b, t[1..]);
      if InLang(a + b, t) {
        var k: nat :| Splits(a[1..], b, t[1..], k);
        assert t[..k + 1][1..] == t[1..][..k] && t[k + 1..] == t[1..][k..];
        assert Splits(a, b, t, k + 1);
      }
      if exists k: nat :: Splits(a, b, t, k) {
        var k: nat :| Splits(a, b, t, k);
        assert t[..k][1..] == t[1..][..k - 1] && t[k..] == t[1..][k - 1..];
        assert Splits(a[1..], b, t[1..], k - 1);
      }
    }
  }

  lemma {:induction false} JoinedStar(a: seq<Item>, b: seq<Item>, t: string)
    requires a != [] && a[0].Star?
    ensures InLang(a + b, t) <==> exists k: nat :: Splits(a, b, t, k)
    decreases |a|, 0
  {
    var c := a[0].c;
    assert (a + b)[1..] == a[1..] + b;
    if InLang(a + b, t) {
      var j: nat :| j <= |t| && AllFit(c, t[..j]) && InLang(a[1..] + b, t[j..]);
      JoinedWords(a[1..], b, t[j..]);
      var k: nat :| Splits(a[1..], b, t[j..], k);
      assert t[..j + k][..j] == t[..j] && t[..j + k][j..] == t[j..][..k] && t[j + k..] == t[j..][k..];
      assert Splits(a, b, t, j + k);
    }
    if exists k: nat :: Splits(a, b, t, k) {
      var k: nat :| Splits(a, b, t, k);
      var j: nat :| j <= k && AllFit(c, t[..k][..j]) && InLang(a[1..], t[..k][j..]);
      assert t[..k][..j] == t[..j] && t[..k][j..] == t[j..][..k - j] && t[k..] == t[j..][k - j..];
      assert Splits(a[1..], b, t[j..], k - j);
      JoinedWords(a[1..], b, t[j..]);
    }
  }

  // ---- the matcher ----

  /** The character at the end of a C string is its NUL. */
  function CharAt(s: string, i: nat): char {
    if i < |s| then s[i] else '\0'
  }

  /** The one pattern that is written like this. */
  lemma Shown(re: string)
    ensures forall p :: Plain(p) && re == Show(p) ==> p == Parse(re)
  {
    forall p | Plain(p) && re == Show(p)
      ensures p == Parse(re)
    {
      ParseShow(p);
    }
  }

  /** matchhere: the text starts with a word of the pattern. */
  method Matchhere(re: string, text: string) returns (r: bool)
    requires NoNul(re) && NoNul(text)
    ensures r <==> Matches(Parse(re), text)
    ensures forall p :: Plain(p) && re == Show(p) ==> (r <==> Matches(p, text))
    decreases |re|, |text|, 0
  {
    Shown(re);
    EmptyStep(text);
    if CharAt(re, 0) == '\0' {
      return true;
    }
    if CharAt(re, 1) == '*' {
      StarStep(re[0], Parse(re[2..]), text);
      r := Matchstar(re[0], re[2..], text);
      return;
    }
    if re[0] == '$' && CharAt(re, 1) == '\0' {
      assert re == "$";
      return CharAt(text, 0) == '\0';
    }
    OneStep(re[0], Parse(re[1..]), text);
    if CharAt(text, 0) != '\0' && (re[0] == '.' || re[0] == CharAt(text, 0)) {
      r := Matchhere(re[1..], text[1..]);
      return;
    }
    r := false;
  }

  /** matchstar: after some characters that fit c, the text goes on with a word of the pattern. */
  method Matchstar(c: char, re: string, text: string) returns (r: bool)
    requires NoNul(re) && NoNul(text)
    ensures r <==> StarMatches(c, Parse(re), text)
    ensures forall p :: Plain(p) && re == Show(p) ==> (r <==> StarMatches(c, p, text))
    decreases |re|, |text|, 1
  {
    Shown(re);
    var i := 0;
    while true
      invariant i <= |text| && AllFit(c, text[..i])
      invariant forall k: nat :: k < i ==> !Matches(Parse(re), text[k..])
      decreases |text| - i
    {
      r := Matchhere(re, text[i..]);
      if r {
        return;
      }
      if !(CharAt(text, i) != '\0' && (text[i] == c || c == '.')) {
        break;
      }
      assert text[..i + 1] == text[..i] + [text[i]];
      i := i + 1;
    }
    forall k: nat | k <= |text| && AllFit(c, text[..k])
      ensures !Matches(Parse(re), text[k..])
    {
      assert k > i ==> Fits(c, text[..k][i]);
    }
  }

  /** match: some position of the text, or with ^ the first, starts a word of the pattern. */
  method Match(re: string, text: string) returns (r: bool)
    requires NoNul(re) && NoNul(text)
    ensures r <==> if CharAt(re, 0) == '^' then Matches(Parse(re[1..]), text)
                   else exists i: nat :: i <= |text| && Matches(Parse(re), text[i..])
    ensures forall p :: Plain(p) && re == "^" + Show(p) ==> (r <==> Matches(p, text))
    ensures forall p :: Plain(p) && re == Show(p) && CharAt(re, 0) != '^' ==>
      (r <==> exists i: nat :: i <= |text| && Matches(p, text[i..]))
  {
    Shown(re);
    if re != "" {
      Shown(re[1..]);
    }
    if CharAt(re, 0) == '^' {
      r := Matchhere(re[1..], text);
      return;
    }
    var i := 0;
    while true
      invariant i <= |text| && forall k: nat :: k < i ==> !Matches(Parse(re), text[k..])
      decreases |text| - i
    {
      r := Matchhere(re, text[i..]);
      if r {
        return;
      }
      if CharAt(text, i) == '\0' {
        break;
      }
      i := i + 1;
    }
  }
}
