/**
 The chunks themselves, apps/api/captureos/ingestion/chunking.py `_split`: where the windows of an over-long paragraph
 lie and how much neighbours share, which pieces a text has, and that a packed piece splits back into its paragraphs.
 */
module ChunkingWindows {
  import opened Wrappers
  import opened Text
  import opened Chunking
  import opened ChunkingLaws

  // ---------------------------------------------------------------------------
  // Windows
  // ---------------------------------------------------------------------------

  lemma StepOn(i: nat, step: nat)
    ensures (i + 1) * step == i * step + step
  {
  }

  // A list that takes an element every so many steps.
  ghost predicate Strides<T(!new)>(list: nat -> seq<T>, one: nat -> T, n: nat, step: nat) {
    forall k: nat :: StridesFrom(list, one, n, step, k)
  }

  ghost predicate StridesFrom<T>(list: nat -> seq<T>, one: nat -> T, n: nat, step: nat, k: nat) {
    if k >= n then |list(k)| == 0
    else |list(k)| == 1 + |list(k + step)| && list(k)[0] == one(k) && list(k)[1..] == list(k + step)
  }

  lemma {:induction false} StrideAt<T(!new)>(list: nat -> seq<T>, one: nat -> T, n: nat, step: nat, from: nat, i: nat,
      at: nat)
    requires step >= 1 && at == from + i * step
    requires Strides(list, one, n, step)
    ensures (i < |list(from)| <==> at < n) && (i < |list(from)| ==> list(from)[i] == one(at))
    decreases i
  {
    assert StridesFrom(list, one, n, step, from);
    if from < n {
      if i > 0 {
        StepOn(i - 1, step);
        StrideAt(list, one, n, step, from + step, i - 1, at);
      }
    } else {
      assert i * step >= 0;
    }
  }

  lemma WindowAt(para: string, target: int, step: nat, i: nat, at: nat)
    requires step >= 1 && at == i * step
    ensures var w := Windows(para, target, step, 0);
      (i < |w| <==> at < |para|) && (i < |w| ==> w[i] == Slice(para, at, at + target))
  {
    var list, one := (k: nat) => Windows(para, target, step, k), (k: nat) => Slice(para, k, k + target);
    forall k: nat ensures StridesFrom(list, one, |para|, step, k) {}
    StrideAt(list, one, |para|, step, 0, i, at);
  }

  // The i-th window starts i steps into the paragraph and is as long as the target, or reaches its end.
  function WindowOf(para: string, target: nat, step: nat, i: nat): string
    requires i * step < |para|
  {
    para[i * step..Min(i * step + target, |para|)]
  }

  lemma WindowsMeaning(para: string, target: nat, step: nat)
    requires step >= 1
    ensures forall i: nat :: i < |Windows(para, target, step, 0)| <==> i * step < |para|
    ensures forall i | 0 <= i < |Windows(para, target, step, 0)| ::
      i * step < |para| && Windows(para, target, step, 0)[i] == WindowOf(para, target, step, i)
  {
    forall i: nat
      ensures i < |Windows(para, target, step, 0)| <==> i * step < |para|
      ensures i < |Windows(para, target, step, 0)| ==>
        Windows(para, target, step, 0)[i] == WindowOf(para, target, step, i)
    {
      assert i * step >= 0;
      WindowAt(para, target, step, i, i * step);
    }
  }

  predicate Share(w: string, next: string, target: nat, overlap: nat)
    requires overlap < target
  {
    && target - overlap <= |w| && w[target - overlap..] == next[..Min(overlap, |next|)]
    && (|w| == target ==> |next| >= overlap)
  }

  lemma NeighboursShare(para: string, at: nat, target: nat, overlap: nat, w: string, next: string)
    requires overlap < target && at + (target - overlap) < |para|
    requires w == Slice(para, at, at + target)
    requires next == Slice(para, at + (target - overlap), at + (target - overlap) + target)
    ensures Share(w, next, target, overlap)
  {
    var step := target - overlap;
    assert w == para[at..Min(at + target, |para|)] && next == para[at + step..Min(at + step + target, |para|)];
    assert w[step..] == para[at + step..Min(at + target, |para|)];
    assert next[..Min(overlap, |next|)] == para[at + step..at + step + Min(overlap, |next|)];
  }

  lemma OverlapFrom(para: string, target: nat, overlap: nat, step: nat, i: nat, at: nat, w: seq<string>)
    requires overlap < target && step == target - overlap && w == Windows(para, target, step, 0)
    requires i + 1 < |w| && at == i * step && at + step == (i + 1) * step
    ensures Share(w[i], w[i + 1], target, overlap)
  {
    WindowAt(para, target, step, i, at);
    WindowAt(para, target, step, i + 1, at + step);
    NeighboursShare(para, at, target, overlap, w[i], w[i + 1]);
  }

  // Each window ends with the characters that the next one starts with: as many as the overlap, or all of the next
  // one if that is shorter.
  lemma WindowsOverlap(para: string, target: nat, overlap: nat, i: nat)
    requires overlap < target && i + 1 < |Windows(para, target, StepOf(target, overlap), 0)|
    ensures var w := Windows(para, target, StepOf(target, overlap), 0); Share(w[i], w[i + 1], target, overlap)
  {
    var step := StepOf(target, overlap);
    StepOn(i, step);
    assert i * step >= 0;
    OverlapFrom(para, target, overlap, step, i, i * step, Windows(para, target, step, 0));
  }

  // ---------------------------------------------------------------------------
  // Pieces
  // ---------------------------------------------------------------------------

  // What is listed element by element is listed part by part.
  lemma {:induction false} ListedBoth<T, U>(list: seq<T> -> seq<U>, one: T -> seq<U>, a: seq<T>, b: seq<T>)
    requires list([]) == [] && forall s, x :: list(s + [x]) == list(s) + one(x)
    ensures list(a + b) == list(a) + list(b)
  {
    if b == [] {
      assert a + b == a;
    } else {
      var front, last := b[..|b| - 1], b[|b| - 1];
      ListedBoth(list, one, a, front);
      assert a + b == (a + front) + [last] && b == front + [last];
    }
  }

  lemma RenderBoth(a: seq<Block>, b: seq<Block>, target: int, step: nat)
    requires step >= 1
    ensures Render(a + b, target, step) == Render(a, target, step) + Render(b, target, step)
  {
    var list, one := (s: seq<Block>) => Render(s, target, step), (x: Block) => PiecesOf(x, target, step);
    forall s, x ensures list(s + [x]) == list(s) + one(x) {
      RenderAppend(s, x, target, step);
    }
    ListedBoth(list, one, a, b);
  }

  lemma KeptBoth(a: seq<string>, b: seq<string>)
    ensures Kept(a + b) == Kept(a) + Kept(b)
  {
    var one := (x: string) => if Blank(x) then [] else [x];
    forall s: seq<string>, x ensures Kept(s + [x]) == Kept(s) + one(x) {
      assert (s + [x])[..|s|] == s;
    }
    ListedBoth(Kept, one, a, b);
  }

  // Wherever a paragraph is cut, the pieces of the text list its windows in order, between those of what comes before
  // and after; only blank ones are missing.
  lemma CutPieces(text: string, target: int, overlap: int, before: seq<Block>, para: string, after: seq<Block>)
    requires Blocks(text, target) == before + [Cut(para)] + after
    ensures var step := StepOf(target, overlap);
      Pieces(text, target, overlap) == Kept(Render(before, target, step)) + Kept(Windows(para, target, step, 0)) +
        Kept(Render(after, target, step))
  {
    var step := StepOf(target, overlap);
    RenderBoth(before + [Cut(para)], after, target, step);
    RenderAppend(before, Cut(para), target, step);
    KeptBoth(Render(before, target, step) + Windows(para, target, step, 0), Render(after, target, step));
    KeptBoth(Render(before, target, step), Windows(para, target, step, 0));
  }

  ghost predicate PieceOf(b: Block, target: nat, step: nat, piece: string) {
    match b
    case Packed(paras) => piece == Join(paras)
    case Cut(para) => exists i: nat :: i * step < |para| && piece == WindowOf(para, target, step, i)
  }

  lemma PiecesOfMeaning(b: Block, target: nat, step: nat, piece: string)
    requires step >= 1
    ensures piece in PiecesOf(b, target, step) <==> PieceOf(b, target, step, piece)
  {
    if b.Cut? {
      WindowsMeaning(b.para, target, step);
      var w := Windows(b.para, target, step, 0);
      if piece in w {
        var i :| 0 <= i < |w| && w[i] == piece;
        assert piece == WindowOf(b.para, target, step, i);
      }
      if i: nat :| i * step < |b.para| && piece == WindowOf(b.para, target, step, i) {
        assert i < |w| && w[i] in w;
      }
    }
  }

  lemma {:induction false} RenderMeaning(blocks: seq<Block>, target: nat, step: nat, piece: string)
    requires step >= 1
    ensures piece in Render(blocks, target, step) <==> exists b | b in blocks :: PieceOf(b, target, step, piece)
  {
    if blocks != [] {
      var front, b := blocks[..|blocks| - 1], blocks[|blocks| - 1];
      RenderMeaning(front, target, step, piece);
      PiecesOfMeaning(b, target, step, piece);
      assert blocks == front + [b];
    }
  }

  lemma KeptExactly(pieces: seq<string>, piece: string)
    ensures piece in Kept(pieces) <==> piece in pieces && !Blank(piece)
  {
    KeptMeaning(pieces);
    if piece in pieces && !Blank(piece) {
      KeptKeeps(pieces, piece);
    }
  }

  // The pieces of a text are exactly the joined paragraphs of its packed blocks and the windows of its cut
  // paragraphs, as far as they are not blank.
  lemma PiecesMeaning(text: string, target: nat, overlap: int, piece: string)
    ensures piece in Pieces(text, target, overlap) <==>
      !Blank(piece) && exists b | b in Blocks(text, target) :: PieceOf(b, target, StepOf(target, overlap), piece)
  {
    KeptExactly(Render(Blocks(text, target), target, StepOf(target, overlap)), piece);
    RenderMeaning(Blocks(text, target), target, StepOf(target, overlap), piece);
  }

  // ---------------------------------------------------------------------------
  // Packed pieces split back
  // ---------------------------------------------------------------------------

  ghost predicate Tidy(p: string) {
    p != "" && !IsSpace(p[0]) && !IsSpace(p[|p| - 1]) && Unbroken(p)
  }

  lemma StripUnbroken(p: string)
    requires Unbroken(p)
    ensures Unbroken(Strip(p))
  {
    var lead, tail := StripCuts(p);
    var q := Strip(p);
    forall i: nat, k: nat ensures !IsBreak(q, i, k) {
      if i < k < |q| {
        var at := |lead|;
        assert p[at + i] == q[i] && p[at + k] == q[k] && p[at + i + 1..at + k] == q[i + 1..k];
        assert !IsBreak(p, at + i, at + k);
      }
    }
  }

  lemma {:induction false} StrippedTidy(raw: seq<string>)
    requires forall p | p in raw :: Unbroken(p)
    ensures forall p | p in Stripped(raw) :: Tidy(p)
  {
    if raw != [] {
      var front, last := raw[..|raw| - 1], raw[|raw| - 1];
      assert last in raw && forall p | p in front :: p in raw;
      StrippedTidy(front);
      StripUnbroken(last);
      var lead, tail := StripCuts(last);
    }
  }

  lemma ParagraphsTidy(text: string)
    ensures forall p | p in Paragraphs(text) :: Tidy(p)
  {
    ParagraphsUnbroken(Strip(text));
    StrippedTidy(SplitParagraphs(Strip(text)));
  }

  lemma {:induction false} JoinFirst(p: string, rest: seq<string>)
    requires rest != []
    ensures Join([p] + rest) == p + "\n\n" + Join(rest)
  {
    var front, last := rest[..|rest| - 1], rest[|rest| - 1];
    assert ([p] + rest)[..|rest|] == [p] + front;
    if front == [] {
      assert [p] + front == [p] && rest == [last];
    } else {
      JoinFirst(p, front);
    }
  }

  lemma SpaceInBreak(s: string, a: nat, b: nat, j: nat)
    requires IsBreak(s, a, b) && a <= j <= b
    ensures IsSpace(s[j])
  {
    BreakIsBlank(s, a, b);
    assert s[a..b + 1][j - a] == s[j];
  }

  lemma BreakInFront(p: string, s: string, a: nat, b: nat)
    requires p <= s && IsBreak(s, a, b) && b < |p|
    ensures IsBreak(p, a, b)
  {
    assert p[a + 1..b] == s[a + 1..b];
  }

  lemma NoBreakBefore(p: string, s: string, a: nat, b: nat)
    requires Tidy(p) && p <= s && IsBreak(s, a, b)
    ensures a >= |p|
  {
    if b < |p| {
      BreakInFront(p, s, a, b);
    } else if a < |p| {
      SpaceInBreak(s, a, b, |p| - 1);
    }
  }

  lemma OnlyBreak(p: string, r: string, s: string, a: nat, b: nat)
    requires Tidy(p) && r != "" && !IsSpace(r[0]) && s == p + "\n\n" + r && IsBreak(s, a, b)
    requires a <= |p| && (a == |p| ==> b >= |p| + 1)
    ensures a == |p| && b == |p| + 1
  {
    NoBreakBefore(p, s, a, b);
    assert s[|p| + 2] == r[0];
    if b > |p| + 1 {
      SpaceInBreak(s, a, b, |p| + 2);
    }
  }

  lemma IsBetween(p: string, r: string)
    ensures IsBreak(p + "\n\n" + r, |p|, |p| + 1)
  {
    var s := p + "\n\n" + r;
    assert s[|p|] == s[|p| + 1] == '\n' && s[|p| + 1..|p| + 1] == [];
  }

  lemma LeftmostBreak(s: string, c: nat, d: nat) returns (a: nat, b: nat)
    requires IsBreak(s, c, d)
    ensures FirstBreak(s, 0) == Some((a, b)) && IsBreak(s, a, b) && a <= c && (a == c ==> b >= d)
  {
    FirstBreakMeaning(s, 0);
    a, b := FirstBreak(s, 0).value.0, FirstBreak(s, 0).value.1;
  }

  lemma BreakBetween(p: string, r: string)
    requires Tidy(p) && r != "" && !IsSpace(r[0])
    ensures FirstBreak(p + "\n\n" + r, 0) == Some((|p|, |p| + 1))
  {
    IsBetween(p, r);
    var a, b := LeftmostBreak(p + "\n\n" + r, |p|, |p| + 1);
    OnlyBreak(p, r, p + "\n\n" + r, a, b);
  }

  lemma JoinStarts(paras: seq<string>)
    requires paras != [] && forall p | p in paras :: Tidy(p)
    ensures paras[0] != "" && Join(paras) != "" && Join(paras)[0] == paras[0][0]
  {
    assert paras[0] in paras;
    if |paras| > 1 {
      assert paras == [paras[0]] + paras[1..];
      JoinFirst(paras[0], paras[1..]);
    }
  }

  lemma {:induction false} JoinSplits(paras: seq<string>)
    requires paras != [] && forall p | p in paras :: Tidy(p)
    ensures SplitParagraphs(Join(paras)) == paras
  {
    var p, rest := paras[0], paras[1..];
    assert p in paras && paras == [p] + rest;
    if rest == [] {
      FirstBreakMeaning(p, 0);
      assert paras == [p];
    } else {
      var s := Join(paras);
      JoinFirst(p, rest);
      assert forall q | q in rest :: q in paras;
      assert rest[0] in rest;
      JoinStarts(rest);
      BreakBetween(p, Join(rest));
      JoinSplits(rest);
      assert s[..|p|] == p && s[|p| + 2..] == Join(rest);
    }
  }

  lemma {:induction false} ParasOfBlock(blocks: seq<Block>, b: Block)
    requires b in blocks
    ensures forall p | p in ParasIn(b) :: p in ParasOf(blocks)
  {
    if blocks[|blocks| - 1] != b {
      ParasOfBlock(blocks[..|blocks| - 1], b);
    }
  }

  // Splitting a packed piece at its blank lines gives back the paragraphs that were packed into it.
  lemma PackedSplitsBack(text: string, target: int, b: Block)
    requires b in Blocks(text, target) && b.Packed?
    ensures SplitParagraphs(Join(b.paras)) == b.paras
  {
    BlocksWellPacked(text, target);
    ParagraphsTidy(text);
    ParasOfBlock(Blocks(text, target), b);
    JoinSplits(b.paras);
  }
}
