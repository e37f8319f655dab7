/** The question page: the guard on a blank question and `formatAnswer`, which cuts an answer
    into paragraphs and turns a paragraph that starts with `1.`-style numbering into a list. */
module AskAiPage {
  import opened Wrappers
  import opened JsText
  import opened JsNumber
  import opened Selection
  import opened ServiceTypes
  import ServiceCalls
  import AiService

  // ---------------------------------------------------------------------------------------
  // Paragraphs: `text.split(/\n+/)`
  // ---------------------------------------------------------------------------------------

  /** `s` without its leading newlines. */
  function DropNewlines(s: string): (r: string)
    ensures |r| <= |s|
    ensures |s| > 0 && s[0] == '\n' ==> |r| < |s|
  {
    if |s| > 0 && s[0] == '\n' then DropNewlines(s[1..]) else s
  }

  /** What is dropped is a run of newlines, and what is left does not start with one. */
  lemma {:induction false} DropNewlinesSplits(s: string)
    ensures var r := DropNewlines(s);
      && s == s[..|s| - |r|] + r
      && (forall j :: 0 <= j < |s| - |r| ==> s[j] == '\n')
      && (|r| > 0 ==> r[0] != '\n')
  {
    if |s| > 0 && s[0] == '\n' {
      DropNewlinesSplits(s[1..]);
      var r := DropNewlines(s);
      assert s[1..] == s[1..][..|s| - 1 - |r|] + r;
      assert s[..|s| - |r|] == [s[0]] + s[1..][..|s| - 1 - |r|];
    }
  }

  /** `s.split(/\n+/)`: the text between maximal runs of newlines, an empty string before a
      leading run and after a trailing one. */
  function SplitNewlineRuns(s: string): (r: seq<string>)
    ensures |r| >= 1
    decreases |s|
  {
    var i := IndexOf(s, '\n');
    if i == |s| then [s]
    else [s[..i]] + SplitNewlineRuns(DropNewlines(s[i..]))
  }

  /** No paragraph contains a newline. */
  lemma {:induction false} ParagraphsHaveNoNewline(s: string)
    ensures forall k :: 0 <= k < |SplitNewlineRuns(s)| ==> '\n' !in SplitNewlineRuns(s)[k]
    decreases |s|
  {
    var i := IndexOf(s, '\n');
    if i < |s| {
      var rest := DropNewlines(s[i..]);
      ParagraphsHaveNoNewline(rest);
      var r := SplitNewlineRuns(s);
      assert r == [s[..i]] + SplitNewlineRuns(rest);
      forall k | 0 <= k < |r| ensures '\n' !in r[k] {
        if k > 0 {
          assert r[k] == SplitNewlineRuns(rest)[k - 1];
        }
      }
    }
  }

  /** The strings of `xs` one after the other. */
  function Flatten(xs: seq<string>): string
  {
    if |xs| == 0 then "" else xs[0] + Flatten(xs[1..])
  }

  lemma {:induction false} FlattenConcat(xs: seq<string>, ys: seq<string>)
    ensures Flatten(xs + ys) == Flatten(xs) + Flatten(ys)
  {
    if |xs| == 0 {
      assert xs + ys == ys;
    } else {
      assert (xs + ys)[1..] == xs[1..] + ys;
      FlattenConcat(xs[1..], ys);
    }
  }

  predicate NotNewline(c: char) {
    c != '\n'
  }

  /** The paragraphs hold, in order, every character of the answer that is not a newline: the
      split loses nothing but the newlines. */
  lemma {:induction false} ParagraphsKeepText(s: string)
    ensures Flatten(SplitNewlineRuns(s)) == Filter(s, NotNewline)
    decreases |s|
  {
    var i := IndexOf(s, '\n');
    if i == |s| {
      assert Flatten(SplitNewlineRuns(s)) == s by {
        assert SplitNewlineRuns(s) == [s];
        assert Flatten([s]) == s + Flatten([]);
      }
      FilterKeepsAll(s, NotNewline);
    } else {
      var t := s[i..];
      var rest := DropNewlines(t);
      var r := [s[..i]] + SplitNewlineRuns(rest);
      assert Flatten(SplitNewlineRuns(s)) == s[..i] + Flatten(SplitNewlineRuns(rest)) by {
        assert SplitNewlineRuns(s) == r;
        assert r[1..] == SplitNewlineRuns(rest);
      }
      assert Filter(s, NotNewline) == s[..i] + Filter(t, NotNewline) by {
        assert s == s[..i] + t;
        FilterConcat(s[..i], t, NotNewline);
        FilterKeepsAll(s[..i], NotNewline);
      }
      FilterSkipsNewlineRun(t);
      ParagraphsKeepText(rest);
    }
  }

  /** Dropping a run of leading newlines does not change what the filter keeps. */
  lemma {:induction false} FilterSkipsNewlineRun(t: string)
    ensures Filter(t, NotNewline) == Filter(DropNewlines(t), NotNewline)
  {
    var rest := DropNewlines(t);
    var run := t[..|t| - |rest|];
    DropNewlinesSplits(t);
    FilterConcat(run, rest, NotNewline);
    FilterDropsNewlines(run);
  }

  lemma {:induction false} FilterDropsNewlines(run: string)
    requires forall j :: 0 <= j < |run| ==> run[j] == '\n'
    ensures Filter(run, NotNewline) == ""
  {
    if |run| > 0 {
      FilterDropsNewlines(run[1..]);
    }
  }

  /** A paragraph that does not start with a newline run is followed by one: every paragraph
      but the last of such a text is non-empty. */
  lemma {:induction false} LeadingParagraphsNonEmpty(t: string)
    requires |t| == 0 || t[0] != '\n'
    ensures forall k :: 0 <= k < |SplitNewlineRuns(t)| - 1 ==> SplitNewlineRuns(t)[k] != ""
    decreases |t|
  {
    var i := IndexOf(t, '\n');
    if i < |t| {
      var rest := DropNewlines(t[i..]);
      DropNewlinesSplits(t[i..]);
      LeadingParagraphsNonEmpty(rest);
      var r := SplitNewlineRuns(t);
      assert r == [t[..i]] + SplitNewlineRuns(rest);
      forall k | 0 <= k < |r| - 1 ensures r[k] != "" {
        if k > 0 {
          assert r[k] == SplitNewlineRuns(rest)[k - 1];
        } else {
          assert i > 0;
        }
      }
    }
  }

  /** Only the first and the last paragraph can be empty: `split(/\n+/)` takes a whole run of
      newlines as one separator. */
  lemma InnerParagraphsNonEmpty(s: string)
    ensures forall k :: 0 < k < |SplitNewlineRuns(s)| - 1 ==> SplitNewlineRuns(s)[k] != ""
  {
    var i := IndexOf(s, '\n');
    if i < |s| {
      var rest := DropNewlines(s[i..]);
      DropNewlinesSplits(s[i..]);
      LeadingParagraphsNonEmpty(rest);
      var r := SplitNewlineRuns(s);
      assert r == [s[..i]] + SplitNewlineRuns(rest);
      forall k | 0 < k < |r| - 1 ensures r[k] != "" {
        assert r[k] == SplitNewlineRuns(rest)[k - 1];
      }
    }
  }

  /** The text with every maximal run of newlines written as a single newline. */
  function CollapseRuns(s: string): (r: string)
    ensures |r| <= |s|
    decreases |s|
  {
    if |s| == 0 then ""
    else if s[0] == '\n' then "\n" + CollapseRuns(DropNewlines(s))
    else [s[0]] + CollapseRuns(s[1..])
  }

  /** Text without a newline passes through `CollapseRuns` unchanged. */
  lemma {:induction false} CollapsePlain(a: string, t: string)
    requires '\n' !in a
    ensures CollapseRuns(a + t) == a + CollapseRuns(t)
  {
    if |a| == 0 {
      assert a + t == t;
    } else {
      assert (a + t)[0] == a[0] && a[0] != '\n';
      assert (a + t)[1..] == a[1..] + t;
      assert a == [a[0]] + a[1..];
      CollapsePlain(a[1..], t);
    }
  }

  /** The paragraphs are the pieces between the newline runs: joined with one newline each,
      they give back the text with each run collapsed to one newline. */
  lemma {:induction false} ParagraphsJoinRuns(s: string)
    ensures Join(SplitNewlineRuns(s), "\n") == CollapseRuns(s)
    decreases |s|
  {
    var i := IndexOf(s, '\n');
    if i == |s| {
      CollapsePlain(s, "");
      assert s + "" == s;
    } else {
      var rest := DropNewlines(s[i..]);
      var r := SplitNewlineRuns(s);
      assert r == [s[..i]] + SplitNewlineRuns(rest);
      assert r[1..] == SplitNewlineRuns(rest);
      ParagraphsJoinRuns(rest);
      assert s == s[..i] + s[i..];
      CollapsePlain(s[..i], s[i..]);
    }
  }

  // ---------------------------------------------------------------------------------------
  // Numbered lists
  // ---------------------------------------------------------------------------------------

  /** `\d+\.` matches at position `q` of `p`, as the lookahead `(?=\d+\.)` tests it: a run of
      digits there, directly followed by a point. */
  predicate MarkerAt(p: string, q: nat) {
    q < |p| && StartsWithMarker(p[q..])
  }

  /** `paragraph.match(/^\d+\./)`: a run of digits, then a point. */
  predicate StartsWithMarker(p: string) {
    var n := DigitRun(p); n > 0 && n < |p| && p[n] == '.'
  }

  /** The positions `(?=\d+\.)` matches at. */
  function MarkerCut(p: string): nat -> bool {
    (q: nat) => MarkerAt(p, q)
  }

  /** The first position at or after `q`, before `len`, where `cut` holds, or `len`. */
  function NextCut(len: nat, q: nat, cut: nat -> bool): (c: nat)
    requires q <= len
    ensures q <= c <= len
    ensures forall k :: q <= k < c ==> !cut(k)
    ensures c < len ==> cut(c)
    decreases len - q
  {
    if q == len then len else if cut(q) then q else NextCut(len, q + 1, cut)
  }

  /** `p[from..]` split before every later position where `cut` holds: the way
      `String.prototype.split` treats a separator that only ever matches the empty string. */
  function Pieces(p: string, from: nat, cut: nat -> bool): (r: seq<string>)
    requires from < |p|
    ensures |r| >= 1
    ensures forall i :: 0 <= i < |r| ==> r[i] != ""
    decreases |p| - from
  {
    var c := NextCut(|p|, from + 1, cut);
    if c == |p| then [p[from..]] else [p[from..c]] + Pieces(p, c, cut)
  }

  /** `p.split(r)` for a zero-width `r` matching before the positions where `cut` holds. */
  function SplitBefore(p: string, cut: nat -> bool): (r: seq<string>)
    ensures |r| >= 1
    ensures |p| > 0 ==> forall i :: 0 <= i < |r| ==> r[i] != ""
  {
    if |p| == 0 then [""] else Pieces(p, 0, cut)
  }

  /** The pieces put back together give the paragraph. */
  lemma {:induction false} PiecesConcat(p: string, from: nat, cut: nat -> bool)
    requires from < |p|
    ensures Flatten(Pieces(p, from, cut)) == p[from..]
    decreases |p| - from
  {
    var c := NextCut(|p|, from + 1, cut);
    var r := Pieces(p, from, cut);
    if c == |p| {
      assert Flatten(r) == p[from..] + Flatten([]);
    } else {
      PiecesConcat(p, c, cut);
      assert r[1..] == Pieces(p, c, cut);
      assert p[from..] == p[from..c] + p[c..];
    }
  }

  /** Where piece `i` of pieces cut from `from` on starts. */
  function PieceStart(r: seq<string>, from: nat, i: nat): nat
    requires i <= |r|
  {
    from + |Flatten(r[..i])|
  }

  /** Pieces `r` of the text from `from` to `end` break exactly at the cuts: every piece after
      the first starts at a position where `cut` holds, no position strictly inside a piece is
      one, and every such position strictly between `from` and `end` starts a piece. */
  predicate CutExactly(r: seq<string>, from: nat, end: nat, cut: nat -> bool) {
    && (forall i :: 0 < i < |r| ==> cut(PieceStart(r, from, i)))
    && (forall i, k :: 0 <= i < |r| && PieceStart(r, from, i) < k < PieceStart(r, from, i) + |r[i]| ==> !cut(k))
    && (forall k :: from < k < end && cut(k) ==> exists i :: 0 < i < |r| && PieceStart(r, from, i) == k)
  }

  /** Prepending a piece moves every start one index on and by the piece's length. */
  lemma PieceStartsShift(head: string, rest: seq<string>, from: nat, c: nat)
    requires c == from + |head|
    ensures PieceStart([head] + rest, from, 0) == from
    ensures forall j :: 0 <= j <= |rest| ==> PieceStart([head] + rest, from, j + 1) == PieceStart(rest, c, j)
  {
    var r := [head] + rest;
    assert r[..0] == [];
    forall j | 0 <= j <= |rest| ensures PieceStart(r, from, j + 1) == PieceStart(rest, c, j) {
      assert r[..j + 1] == [head] + rest[..j];
      assert (r[..j + 1])[1..] == rest[..j];
    }
  }

  /** The pieces break exactly at the cuts. */
  lemma {:induction false} PiecesCutExactly(p: string, from: nat, cut: nat -> bool)
    requires from < |p|
    ensures CutExactly(Pieces(p, from, cut), from, |p|, cut)
    decreases |p| - from
  {
    var c := NextCut(|p|, from + 1, cut);
    var r := Pieces(p, from, cut);
    if c == |p| {
      assert r == [p[from..]];
      assert r[..0] == [];
      assert PieceStart(r, from, 0) == from;
    } else {
      var head, rest := p[from..c], Pieces(p, c, cut);
      assert r == [head] + rest;
      PiecesCutExactly(p, c, cut);
      PieceStartsShift(head, rest, from, c);
      CutsOfCons(head, rest, from, c, |p|, cut);
    }
  }

  /** The cut facts of `rest`, cut from `c` on, carry over to `[head] + rest` cut from `from`
      when `head` spans `from` to `c`, holds no cut inside and `rest` starts at a cut. */
  lemma CutsOfCons(head: string, rest: seq<string>, from: nat, c: nat, end: nat, cut: nat -> bool)
    requires c == from + |head| && c < end && |rest| > 0 && cut(c)
    requires forall k :: from < k < c ==> !cut(k)
    requires PieceStart([head] + rest, from, 0) == from
    requires forall j :: 0 <= j <= |rest| ==> PieceStart([head] + rest, from, j + 1) == PieceStart(rest, c, j)
    requires CutExactly(rest, c, end, cut)
    ensures CutExactly([head] + rest, from, end, cut)
  {
    var r := [head] + rest;
    assert r[..0] == [];
    assert PieceStart(rest, c, 0) == c by {
      assert rest[..0] == [];
    }
    forall i | 0 < i < |r| ensures cut(PieceStart(r, from, i)) {
      assert PieceStart(r, from, i) == PieceStart(rest, c, i - 1);
    }
    forall i, k | 0 <= i < |r| && PieceStart(r, from, i) < k < PieceStart(r, from, i) + |r[i]|
      ensures !cut(k)
    {
      if i > 0 {
        assert r[i] == rest[i - 1];
        assert PieceStart(r, from, i) == PieceStart(rest, c, i - 1);
      }
    }
    forall k | from < k < end && cut(k) ensures exists i :: 0 < i < |r| && PieceStart(r, from, i) == k {
      if k == c {
        assert PieceStart(r, from, 1) == k;
      } else {
        var j :| 0 < j < |rest| && PieceStart(rest, c, j) == k;
        assert PieceStart(r, from, j + 1) == k;
      }
    }
  }

  /** `paragraph.split(/(?=\d+\.)/)` as written: a cut before every position where a digit
      run followed by a point starts, including the inner digits of a number, and nowhere
      else. */
  function MarkerPieces(p: string): (r: seq<string>)
    ensures |r| >= 1
    ensures |p| > 0 ==> Flatten(r) == p
    ensures |p| > 0 ==> CutExactly(r, 0, |p|, MarkerCut(p))
  {
    if |p| == 0 then SplitBefore(p, MarkerCut(p))
    else
      PiecesConcat(p, 0, MarkerCut(p));
      PiecesCutExactly(p, 0, MarkerCut(p));
      SplitBefore(p, MarkerCut(p))
  }

  /** Where a list item starts: a marker that does not continue a number. */
  predicate ItemStart(p: string, q: nat) {
    MarkerAt(p, q) && (q == 0 || !IsDigit(p[q - 1]))
  }

  function ItemCut(p: string): nat -> bool {
    (q: nat) => ItemStart(p, q)
  }

  /** The split the numbering calls for: a cut before every whole marker and nowhere else. */
  function ItemPieces(p: string): (r: seq<string>)
    ensures |r| >= 1
    ensures |p| > 0 ==> Flatten(r) == p
    ensures |p| > 0 ==> CutExactly(r, 0, |p|, ItemCut(p))
  {
    if |p| == 0 then SplitBefore(p, ItemCut(p))
    else
      PiecesConcat(p, 0, ItemCut(p));
      PiecesCutExactly(p, 0, ItemCut(p));
      SplitBefore(p, ItemCut(p))
  }

  /** The digit run of a prefix that extends past the run is the run. */
  lemma {:induction false} DigitRunOfPrefix(s: string, m: nat)
    requires DigitRun(s) < m <= |s|
    ensures DigitRun(s[..m]) == DigitRun(s)
  {
    if |s| > 0 && IsDigit(s[0]) {
      assert s[..m][1..] == s[1..][..m - 1];
      DigitRunOfPrefix(s[1..], m - 1);
    }
  }

  /** The digits of a marker follow a digit, so the next item starts after the marker. */
  lemma {:induction false} NoCutInsideMarker(p: string, from: nat)
    requires MarkerAt(p, from)
    ensures NextCut(|p|, from + 1, ItemCut(p)) > from + DigitRun(p[from..])
  {
    var n := DigitRun(p[from..]);
    forall k | from + 1 <= k <= from + n ensures !ItemCut(p)(k) {
      assert p[from..][k - 1 - from] == p[k - 1];
    }
  }

  /** A piece that starts at a marker and runs past it starts with that marker. */
  lemma {:induction false} PieceStartsWithMarker(p: string, from: nat, c: nat)
    requires MarkerAt(p, from) && from + DigitRun(p[from..]) < c <= |p|
    ensures StartsWithMarker(p[from..c])
  {
    var n := DigitRun(p[from..]);
    assert p[from..c] == p[from..][..c - from];
    DigitRunOfPrefix(p[from..], c - from);
    assert p[from..c][n] == p[from..][n];
  }

  predicate AllStartWithMarkers(r: seq<string>) {
    forall i :: 0 <= i < |r| ==> StartsWithMarker(r[i])
  }

  /** Cut before whole markers only, every piece starts with its full marker. */
  lemma {:induction false} ItemPiecesStartAtMarkers(p: string, from: nat)
    requires from < |p| && MarkerAt(p, from)
    ensures AllStartWithMarkers(Pieces(p, from, ItemCut(p)))
    decreases |p| - from
  {
    var cut := ItemCut(p);
    var c := NextCut(|p|, from + 1, cut);
    NoCutInsideMarker(p, from);
    PieceStartsWithMarker(p, from, c);
    if c < |p| {
      var rest := Pieces(p, c, cut);
      ItemPiecesStartAtMarkers(p, c);
      StartWithMarkersCons(p[from..c], rest);
      assert Pieces(p, from, cut) == [p[from..c]] + rest;
    } else {
      assert p[from..] == p[from..c];
    }
  }

  lemma {:induction false} StartWithMarkersCons(head: string, rest: seq<string>)
    requires StartsWithMarker(head) && AllStartWithMarkers(rest)
    ensures AllStartWithMarkers([head] + rest)
  {
    var r := [head] + rest;
    forall i | 1 <= i < |r| ensures StartsWithMarker(r[i]) {
      assert r[i] == rest[i - 1];
    }
  }

  /** No piece but the last ends in a digit. */
  predicate EndOutsideNumbers(r: seq<string>) {
    forall i :: 0 <= i < |r| - 1 ==> r[i] != "" && !IsDigit(r[i][|r[i]| - 1])
  }

  /** Every piece but the last ends right before an item start, so in something other than a
      digit: no number is cut in two. */
  lemma {:induction false} ItemPiecesEndOutsideNumbers(p: string, from: nat)
    requires from < |p|
    ensures EndOutsideNumbers(Pieces(p, from, ItemCut(p)))
    decreases |p| - from
  {
    var cut := ItemCut(p);
    var c := NextCut(|p|, from + 1, cut);
    if c < |p| {
      assert Pieces(p, from, cut) == [p[from..c]] + Pieces(p, c, cut);
      ItemPiecesEndOutsideNumbers(p, c);
      HeadBeforeItem(p, from, c);
      EndOutsideNumbersCons(p[from..c], Pieces(p, c, cut));
    }
  }

  /** The text before an item start does not end in a digit. */
  lemma HeadBeforeItem(p: string, from: nat, c: nat)
    requires from < c < |p| && ItemStart(p, c)
    ensures p[from..c] != "" && !IsDigit(p[from..c][c - from - 1])
  {
    assert p[from..c][c - from - 1] == p[c - 1];
  }

  lemma {:induction false} EndOutsideNumbersCons(head: string, rest: seq<string>)
    requires head != "" && !IsDigit(head[|head| - 1]) && EndOutsideNumbers(rest)
    ensures EndOutsideNumbers([head] + rest)
  {
    var r := [head] + rest;
    forall i | 1 <= i < |r| - 1 ensures r[i] != "" && !IsDigit(r[i][|r[i]| - 1]) {
      assert r[i] == rest[i - 1];
    }
  }

  /** Every item of a numbered paragraph split at whole markers starts with its number, and no
      item but the last ends in a digit. */
  lemma ItemPiecesStartWithMarkers(p: string)
    requires StartsWithMarker(p)
    ensures AllStartWithMarkers(ItemPieces(p))
    ensures EndOutsideNumbers(ItemPieces(p))
  {
    assert p[0..] == p;
    assert ItemPieces(p) == Pieces(p, 0, ItemCut(p));
    ItemPiecesStartAtMarkers(p, 0);
    ItemPiecesEndOutsideNumbers(p, 0);
  }

  /** A list entry: the number shown before the point and the text after it. */
  datatype ListItem = ListItem(number: Option<string>, body: string)

  /** `item.match(/^\d+/)?.[0]` and `item.replace(/^\d+\./, '').trim()`. */
  function Item(piece: string): (item: ListItem)
    ensures item.number.Some? <==> |piece| > 0 && IsDigit(piece[0])
    ensures item.number.Some? ==> |item.number.value| > 0 && AllDigits(item.number.value)
    ensures StartsWithMarker(piece) ==>
      item.number == Some(piece[..DigitRun(piece)]) && item.body == Trim(piece[DigitRun(piece) + 1..])
    ensures !StartsWithMarker(piece) ==> item.body == Trim(piece)
  {
    var n := DigitRun(piece);
    ListItem(
      if n == 0 then None else Some(piece[..n]),
      Trim(if StartsWithMarker(piece) then piece[n + 1..] else piece))
  }

  function Items(pieces: seq<string>): (r: seq<ListItem>)
    ensures |r| == |pieces|
    ensures forall i :: 0 <= i < |pieces| ==> r[i] == Item(pieces[i])
  {
    if |pieces| == 0 then [] else [Item(pieces[0])] + Items(pieces[1..])
  }

  /** `Boolean` on a string. */
  predicate IsNonEmpty(s: string) {
    s != ""
  }

  /** What a paragraph renders as. */
  datatype Block = NumberedList(items: seq<ListItem>) | TextParagraph(text: string)

  /** One paragraph of `formatAnswer`, with `split` the list split it uses: `.filter(Boolean)`
      drops the empty pieces. */
  function FormatParagraph(p: string, split: string -> seq<string>): (b: Block)
    ensures StartsWithMarker(p) <==> b.NumberedList?
    ensures b.TextParagraph? ==> b.text == Trim(p)
    ensures b.NumberedList? ==> b.items == Items(Filter(split(p), IsNonEmpty))
  {
    if StartsWithMarker(p) then NumberedList(Items(Filter(split(p), IsNonEmpty)))
    else TextParagraph(Trim(p))
  }

  function FormatParagraphs(ps: seq<string>, split: string -> seq<string>): (r: seq<Block>)
    ensures |r| == |ps|
    ensures forall i :: 0 <= i < |ps| ==> r[i] == FormatParagraph(ps[i], split)
  {
    if |ps| == 0 then [] else [FormatParagraph(ps[0], split)] + FormatParagraphs(ps[1..], split)
  }

  /** `formatAnswer` as written, with the list split of the source. */
  function FormatAnswerAsWritten(text: string): (blocks: seq<Block>)
    ensures |blocks| == |SplitNewlineRuns(text)|
  {
    FormatParagraphs(SplitNewlineRuns(text), MarkerPieces)
  }

  /** `formatAnswer` with list items cut only before whole markers. */
  function FormatAnswer(text: string): (blocks: seq<Block>)
    ensures |blocks| == |SplitNewlineRuns(text)|
    ensures forall i :: 0 <= i < |blocks| ==>
      blocks[i] == FormatParagraph(SplitNewlineRuns(text)[i], ItemPieces)
  {
    FormatParagraphs(SplitNewlineRuns(text), ItemPieces)
  }

  /** A numbered paragraph: no piece is empty, so the filter drops nothing, the items put
      together give the paragraph back, and each item carries its whole number as label and
      the text after the number's point as body. */
  lemma NumberedParagraph(p: string)
    requires StartsWithMarker(p)
    ensures var b := FormatParagraph(p, ItemPieces);
      && b.NumberedList?
      && b.items == Items(ItemPieces(p))
      && Flatten(ItemPieces(p)) == p
      && forall i :: 0 <= i < |b.items| ==>
           var piece := ItemPieces(p)[i];
           && StartsWithMarker(piece)
           && b.items[i] == ListItem(Some(piece[..DigitRun(piece)]), Trim(piece[DigitRun(piece) + 1..]))
  {
    var pieces := ItemPieces(p);
    FilterKeepsAll(pieces, IsNonEmpty);
    ItemPiecesStartWithMarkers(p);
  }

  /** The paragraph `10.` is one paragraph that starts with a marker. */
  lemma TenIsNumbered()
    ensures SplitNewlineRuns("10.") == ["10."]
    ensures DigitRun("10.") == 2 && StartsWithMarker("10.")
  {
    var p := "10.";
    assert IndexOf(p, '\n') == 3;
    assert DigitRun(p[2..]) == 0;
    assert DigitRun(p[1..]) == 1;
  }

  /** The split as written cuts `10.` before its `0` as well. */
  lemma TenPiecesAsWritten()
    ensures MarkerPieces("10.") == ["1", "0."]
  {
    var p := "10.";
    var cut := MarkerCut(p);
    assert p[1..] == "0." && p[2..] == ".";
    assert DigitRun(".") == 0;
    assert DigitRun("0.") == 1;
    assert cut(1) && !cut(2);
    assert NextCut(3, 1, cut) == 1;
    assert NextCut(3, 2, cut) == 3;
    assert Pieces(p, 1, cut) == ["0."];
    assert p[0..1] == "1";
    assert Pieces(p, 0, cut) == ["1", "0."];
    assert SplitBefore(p, cut) == ["1", "0."];
  }

  /** The pieces `1` and `0.` as list items. */
  lemma TenItemsAsWritten()
    ensures Item("1") == ListItem(Some("1"), "1")
    ensures Item("0.") == ListItem(Some("0"), "")
  {
    var one, zero := "1", "0.";
    assert DigitRun(one[1..]) == 0;
    assert DigitRun(one) == 1;
    assert one[..1] == one;
    TrimUnchanged(one);
    assert DigitRun(zero[1..]) == 0;
    assert DigitRun(zero) == 1;
    assert zero[..1] == "0" && zero[2..] == "";
    assert Trim("") == "";
  }

  /** No piece of `10.` is empty, so `.filter(Boolean)` keeps both. */
  lemma TenFilterAsWritten()
    ensures Filter(MarkerPieces("10."), IsNonEmpty) == ["1", "0."]
  {
    TenPiecesAsWritten();
    FilterKeepsAll(["1", "0."], IsNonEmpty);
  }

  lemma TenListAsWritten()
    ensures Items(["1", "0."]) == [ListItem(Some("1"), "1"), ListItem(Some("0"), "")]
  {
    TenItemsAsWritten();
  }

  /** The paragraph `10.` as the split as written renders it. */
  lemma TenParagraphAsWritten()
    ensures FormatParagraph("10.", MarkerPieces) ==
      NumberedList([ListItem(Some("1"), "1"), ListItem(Some("0"), "")])
  {
    TenIsNumbered();
    TenFilterAsWritten();
    TenListAsWritten();
  }

  /** The split as written renders the paragraph `10.` as a list with an item `1.` whose
      body is `1` and an item `0.` with an empty body. */
  lemma TenSplitInTwo()
    ensures FormatAnswerAsWritten("10.") ==
      [NumberedList([ListItem(Some("1"), "1"), ListItem(Some("0"), "")])]
  {
    TenParagraphAsWritten();
    TenIsNumbered();
    assert FormatParagraphs(["10."], MarkerPieces) == [FormatParagraph("10.", MarkerPieces)];
  }

  /** Cut before whole markers only, `10.` stays one item numbered 10 with an empty body. */
  lemma TenStaysWhole()
    ensures ItemPieces("10.") == ["10."]
    ensures FormatAnswer("10.") == [NumberedList([ListItem(Some("10"), "")])]
  {
    TenIsNumbered();
    var p := "10.";
    var cut := ItemCut(p);
    assert p[1..] == "0." && p[2..] == ".";
    assert DigitRun(".") == 0;
    assert IsDigit(p[0]);
    assert !cut(1) && !cut(2);
    assert NextCut(3, 1, cut) == 3;
    assert ItemPieces(p) == [p];
    FilterKeepsAll([p], IsNonEmpty);
    assert p[..2] == "10" && p[3..] == "";
    assert Item(p) == ListItem(Some("10"), "");
    assert Items([p]) == [Item(p)];
  }

  // ---------------------------------------------------------------------------------------
  // Submitting a question
  // ---------------------------------------------------------------------------------------

  /** `if (!question.trim()) return;`: the question `askAI` is called with, untrimmed, if any. */
  function SubmittedQuestion(question: string): (r: Option<string>)
    ensures r.None? <==> AllWhitespace(question)
    ensures r.Some? ==> r.value == question
  {
    if Trim(question) == "" then None else Some(question)
  }

  /** The quick-access questions under "常見問題". */
  const COMMON_QUESTIONS: seq<string> := [
    "發燒的處理方法有哪些？",
    "如何判斷是否需要就醫？",
    "兒童感冒的注意事項有哪些？",
    "如何預防流感？"
  ]

  /** Every quick-access question gets past the blank-question guard unchanged. */
  lemma {:induction false} CommonQuestionsSubmit(i: nat)
    requires i < |COMMON_QUESTIONS|
    ensures SubmittedQuestion(COMMON_QUESTIONS[i]) == Some(COMMON_QUESTIONS[i])
  {
    var q := COMMON_QUESTIONS[i];
    assert !IsWhitespace(q[0]);
  }

  /** The state of the question page. */
  class QuestionPage {
    var question: string
    var answer: string
    var loading: bool
    var error: Option<string>

    constructor()
      ensures question == "" && answer == "" && !loading && error == None
    {
      question := "";
      answer := "";
      loading := false;
      error := None;
    }

    /** Typing into the text area, or clicking a quick-access question. */
    method SetQuestion(text: string)
      modifies this
      ensures question == text
      ensures answer == old(answer) && loading == old(loading) && error == old(error)
    {
      question := text;
    }

    /** What the answer area shows: nothing for an empty answer, else `formatAnswer(answer)`,
        one block per paragraph. */
    function Shown(): (blocks: seq<Block>)
      reads this
      ensures answer == "" ==> blocks == []
      ensures answer != "" ==> blocks == FormatAnswer(answer) && |blocks| == |SplitNewlineRuns(answer)|
    {
      if answer == "" then [] else FormatAnswer(answer)
    }

    /** `handleSubmit` at clock reading `now`: a blank question changes nothing; otherwise the
        question goes to `askAI` as typed, its answer replaces the old one or its message
        becomes the error, and the spinner stops. */
    method Submit(service: AiService.Service, hasKey: bool, now: int, ex: Exchange, roll: real)
      requires service.Valid() && 0.0 <= roll < 1.0
      modifies this, service
      ensures service.Valid()
      ensures question == old(question)
      ensures SubmittedQuestion(old(question)).None? ==>
        && service.State() == old(service.State())
        && answer == old(answer) && loading == old(loading) && error == old(error)
      ensures SubmittedQuestion(old(question)).Some? ==>
        var (r, st) := ServiceCalls.AskAI(old(service.State()), hasKey, old(question), now, ex, roll);
        && service.State() == st
        && !loading
        && (r.Success? ==> answer == r.value && error == None)
        && (r.Failure? ==> answer == old(answer) && error == Some(r.error))
    {
      if SubmittedQuestion(question).None? {
        return;
      }
      loading := true;
      error := None;
      var r := service.AskAI(hasKey, question, now, ex, roll);
      if r.Success? {
        answer := r.value;
      } else {
        error := Some(r.error);
      }
      loading := false;
    }
  }
}
