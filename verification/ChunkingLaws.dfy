/** What chunk splitting guarantees: the bound, the greedy packing, and that no text is lost. */
module ChunkingLaws {
  import opened Wrappers
  import opened Text
  import opened Chunking

  // ---------------------------------------------------------------------------
  // Packing
  // ---------------------------------------------------------------------------

  function ParasIn(b: Block): seq<string> {
    match b
    case Packed(ps) => ps
    case Cut(p) => [p]
  }

  function ParasOf(blocks: seq<Block>): seq<string> {
    if blocks == [] then [] else ParasOf(blocks[..|blocks| - 1]) + ParasIn(blocks[|blocks| - 1])
  }

  predicate FitsTarget(b: Block, target: int) {
    match b
    case Packed(ps) => ps != [] && |Join(ps)| <= target
    case Cut(p) => |p| > target
  }

  // Two neighbouring packed blocks could not have shared a piece.
  predicate Greedy(a: Block, b: Block, target: int) {
    a.Packed? && b.Packed? && b.paras != [] ==> |Join(a.paras)| + |b.paras[0]| + 2 > target
  }

  predicate FollowsWell(blocks: seq<Block>, b: Block, target: int) {
    FitsTarget(b, target) && (blocks != [] ==> Greedy(blocks[|blocks| - 1], b, target))
  }

  predicate WellPacked(blocks: seq<Block>, target: int) {
    blocks == [] ||
    (FollowsWell(blocks[..|blocks| - 1], blocks[|blocks| - 1], target) && WellPacked(blocks[..|blocks| - 1], target))
  }

  lemma LastBlock(blocks: seq<Block>, b: Block, target: int)
    ensures WellPacked(blocks + [b], target) <==> FollowsWell(blocks, b, target) && WellPacked(blocks, target)
    ensures ParasOf(blocks + [b]) == ParasOf(blocks) + ParasIn(b)
  {
    assert (blocks + [b])[..|blocks|] == blocks;
  }

  // A packing of these paragraphs; nothing open means that a cut paragraph came last, if anything did.
  predicate PacksWell(k: Packing, paras: seq<string>, target: int) {
    && WellPacked(Close(k), target)
    && ParasOf(Close(k)) == paras
    && (forall p | p in k.open :: p != "")
    && (k.open == [] ==> k.closed == [] || k.closed[|k.closed| - 1].Cut?)
  }

  // A block that fits after others still does with a paragraph more, as long as it keeps to the target.
  lemma FollowsLonger(blocks: seq<Block>, open: seq<string>, para: string, target: int)
    requires FollowsWell(blocks, Packed(open), target) && open != [] && |Join(open + [para])| <= target
    ensures FollowsWell(blocks, Packed(open + [para]), target)
  {
    assert (open + [para])[0] == open[0];
  }

  lemma JoinedLength(open: seq<string>, para: string)
    requires open != [] && forall p | p in open :: p != ""
    ensures |Join(open + [para])| == |Join(open)| + 2 + |para|
  {
    JoinNotEmpty(open);
    JoinAppend(open, para);
  }

  // Adding to an open piece, and opening one with the first paragraph.
  lemma JoinPacksWell(k: Packing, paras: seq<string>, para: string, target: int)
    requires PacksWell(k, paras, target) && para != "" && k.open != [] && |Join(k.open)| + |para| + 2 <= target
    ensures PacksWell(Packing(k.closed, k.open + [para]), paras + [para], target)
  {
    var open := k.open + [para];
    LastBlock(k.closed, Packed(k.open), target);
    LastBlock(k.closed, Packed(open), target);
    JoinedLength(k.open, para);
    FollowsLonger(k.closed, k.open, para, target);
    assert ParasOf(k.closed) + open == (ParasOf(k.closed) + k.open) + [para];
  }

  lemma OpenPacksWell(k: Packing, paras: seq<string>, para: string, target: int)
    requires PacksWell(k, paras, target) && para != "" && k.open == [] && |para| + 2 <= target
    ensures PacksWell(Packing(k.closed, [para]), paras + [para], target)
  {
    assert Close(k) == k.closed && Join([para]) == para;
    LastBlock(k.closed, Packed([para]), target);
  }

  lemma NextPacksWell(k: Packing, paras: seq<string>, para: string, target: int)
    requires PacksWell(k, paras, target) && para != "" && |Join(k.open)| + |para| + 2 > target
    ensures PacksWell(if |para| > target then Packing(Close(k) + [Cut(para)], [])
      else Packing(Close(k), [para]), paras + [para], target)
  {
    LastBlock(Close(k), if |para| > target then Cut(para) else Packed([para]), target);
    assert k.open == [] ==> Close(k) == k.closed;
    assert Close(Packing(Close(k) + [Cut(para)], [])) == Close(k) + [Cut(para)];
  }

  lemma PlacePacksWell(k: Packing, paras: seq<string>, para: string, target: int, next: Packing, all: seq<string>)
    requires PacksWell(k, paras, target) && para != "" && next == Place(k, para, target) && all == paras + [para]
    ensures PacksWell(next, all, target)
  {
    if |Join(k.open)| + |para| + 2 <= target {
      if k.open == [] {
        assert k.open + [para] == [para];
        OpenPacksWell(k, paras, para, target);
      } else {
        JoinPacksWell(k, paras, para, target);
      }
    } else {
      NextPacksWell(k, paras, para, target);
    }
  }

  lemma PackLast(paras: seq<string>, target: int) returns (front: seq<string>, para: string)
    requires paras != []
    ensures |front| < |paras| && paras == front + [para] &&
      Pack(paras, target) == Place(Pack(front, target), para, target)
  {
    front, para := paras[..|paras| - 1], paras[|paras| - 1];
  }

  lemma {:induction false} PackPacksWell(paras: seq<string>, target: int)
    requires forall p | p in paras :: p != ""
    ensures PacksWell(Pack(paras, target), paras, target)
  {
    if paras == [] {
      assert Close(Packing([], [])) == [];
    } else {
      var front, para := PackLast(paras, target);
      assert para in paras && forall p | p in front :: p in paras;
      PackPacksWell(front, target);
      PlacePacksWell(Pack(front, target), front, para, target, Pack(paras, target), paras);
    }
  }

  lemma {:induction false} WellPackedMeaning(blocks: seq<Block>, target: int)
    requires WellPacked(blocks, target)
    ensures forall i | 0 <= i < |blocks| ::
      FitsTarget(blocks[i], target) && (i > 0 ==> Greedy(blocks[i - 1], blocks[i], target))
  {
    if blocks != [] {
      WellPackedMeaning(blocks[..|blocks| - 1], target);
    }
  }

  // The blocks list the paragraphs of the text in order, none split unless it is longer than the target,
  // and as many to a piece as fit.
  lemma BlocksWellPacked(text: string, target: int)
    ensures var blocks := Blocks(text, target);
      && ParasOf(blocks) == Paragraphs(text)
      && forall i | 0 <= i < |blocks| ::
        FitsTarget(blocks[i], target) && (i > 0 ==> Greedy(blocks[i - 1], blocks[i], target))
  {
    ParagraphsInk(text);
    PackPacksWell(Paragraphs(text), target);
    WellPackedMeaning(Blocks(text, target), target);
  }

  // ---------------------------------------------------------------------------
  // The bound
  // ---------------------------------------------------------------------------

  predicate AllWithin(pieces: seq<string>, target: int) {
    forall i | 0 <= i < |pieces| :: |pieces[i]| <= target
  }

  lemma {:induction false} WindowsBounded(para: string, target: nat, step: nat, from: nat)
    requires step >= 1
    ensures AllWithin(Windows(para, target, step, from), target)
    decreases |para| - from
  {
    if from < |para| {
      WindowsBounded(para, target, step, from + step);
    }
  }

  lemma {:induction false} RenderBounded(blocks: seq<Block>, target: nat, step: nat)
    requires step >= 1 && forall i | 0 <= i < |blocks| :: FitsTarget(blocks[i], target)
    ensures AllWithin(Render(blocks, target, step), target)
  {
    if blocks != [] {
      var b := blocks[|blocks| - 1];
      RenderBounded(blocks[..|blocks| - 1], target, step);
      if b.Cut? {
        WindowsBounded(b.para, target, step, 0);
      }
    }
  }

  lemma {:induction false} KeptMeaning(pieces: seq<string>)
    ensures forall p | p in Kept(pieces) :: p in pieces && !Blank(p)
  {
    if pieces != [] {
      KeptMeaning(pieces[..|pieces| - 1]);
    }
  }

  predicate Bounded(pieces: seq<string>, target: int) {
    forall p | p in pieces :: |p| <= target && !Blank(p)
  }

  // Every chunk is at most the target long and has something in it.
  lemma PiecesBounded(text: string, target: nat, overlap: int)
    ensures Bounded(Pieces(text, target, overlap), target)
  {
    BlocksWellPacked(text, target);
    RenderBounded(Blocks(text, target), target, StepOf(target, overlap));
    KeptMeaning(Render(Blocks(text, target), target, StepOf(target, overlap)));
  }

  // ---------------------------------------------------------------------------
  // Nothing is lost
  // ---------------------------------------------------------------------------

  // Each part starts its piece; what a piece has beyond its part repeats the text of the next pieces.
  predicate Starts(parts: seq<string>, pieces: seq<string>) {
    |parts| == |pieces| && forall i | 0 <= i < |parts| :: parts[i] <= pieces[i]
  }

  ghost predicate Lossless(text: string, target: int, overlap: int) {
    exists parts :: Starts(parts, Pieces(text, target, overlap)) && Ink(Concat(parts)) == Ink(text)
  }

  lemma StartsBoth(a: seq<string>, b: seq<string>, c: seq<string>, d: seq<string>)
    requires Starts(a, c) && Starts(b, d)
    ensures Starts(a + b, c + d)
  {
  }

  // Rendering with the step for a length gives the parts: the windows of a paragraph without overlap.
  lemma {:induction false} WindowParts(para: string, target: int, step: nat, from: nat)
    requires 1 <= step <= target
    ensures Starts(Windows(para, step, step, from), Windows(para, target, step, from))
    decreases |para| - from
  {
    if from < |para| {
      WindowParts(para, target, step, from + step);
      StartsBoth([para[from..Min(from + step, |para|)]], Windows(para, step, step, from + step),
                 [para[from..Min(from + target, |para|)]], Windows(para, target, step, from + step));
    }
  }

  lemma {:induction false} WindowPartsJoin(para: string, step: nat, from: nat)
    requires 1 <= step
    ensures Concat(Windows(para, step, step, from)) == if from < |para| then para[from..] else ""
    decreases |para| - from
  {
    if from < |para| {
      WindowPartsJoin(para, step, from + step);
      var head := para[from..Min(from + step, |para|)];
      ConcatAppend([head], Windows(para, step, step, from + step));
      ConcatOne(head);
    }
  }

  lemma {:induction false} JoinInk(paras: seq<string>)
    ensures Ink(Join(paras)) == Ink(Concat(paras))
  {
    if |paras| == 1 {
      ConcatOne(paras[0]);
      assert [paras[0]] == paras;
    } else if |paras| > 1 {
      var front, last := paras[..|paras| - 1], paras[|paras| - 1];
      JoinInk(front);
      InkAround(Join(front), "\n\n", last);
      InkConcat(Concat(front), last);
    }
  }

  lemma {:induction false} PartsStart(blocks: seq<Block>, target: int, step: nat)
    requires 1 <= step <= target
    ensures Starts(Render(blocks, step, step), Render(blocks, target, step))
  {
    if blocks != [] {
      var front, b := blocks[..|blocks| - 1], blocks[|blocks| - 1];
      PartsStart(front, target, step);
      if b.Cut? {
        WindowParts(b.para, target, step, 0);
      }
      StartsBoth(Render(front, step, step), PiecesOf(b, step, step), Render(front, target, step),
        PiecesOf(b, target, step));
    }
  }

  lemma PartsOfBlock(b: Block, step: nat)
    requires 1 <= step
    ensures Ink(Concat(PiecesOf(b, step, step))) == Ink(Concat(ParasIn(b)))
  {
    match b
    case Packed(ps) =>
      ConcatOne(Join(ps));
      JoinInk(ps);
    case Cut(p) =>
      WindowPartsJoin(p, step, 0);
      ConcatOne(p);
  }

  lemma InkOfBoth(a: seq<string>, b: seq<string>)
    ensures Ink(Concat(a + b)) == Ink(Concat(a)) + Ink(Concat(b))
  {
    ConcatAppend(a, b);
    InkConcat(Concat(a), Concat(b));
  }

  lemma {:induction false} PartsInk(blocks: seq<Block>, step: nat)
    requires 1 <= step
    ensures Ink(Concat(Render(blocks, step, step))) == Ink(Concat(ParasOf(blocks)))
  {
    if blocks != [] {
      var front, b := blocks[..|blocks| - 1], blocks[|blocks| - 1];
      PartsInk(front, step);
      PartsOfBlock(b, step);
      InkOfBoth(Render(front, step, step), PiecesOf(b, step, step));
      InkOfBoth(ParasOf(front), ParasIn(b));
    }
  }

  lemma {:induction false} KeptParts(parts: seq<string>, pieces: seq<string>) returns (kept: seq<string>)
    requires Starts(parts, pieces)
    ensures Starts(kept, Kept(pieces)) && Ink(Concat(kept)) == Ink(Concat(parts))
  {
    kept := [];
    if pieces != [] {
      var n := |pieces| - 1;
      kept := KeptParts(parts[..n], pieces[..n]);
      InkConcat(Concat(parts[..n]), parts[n]);
      if Blank(pieces[n]) {
        assert Blank(parts[n]);
        InkBlank(parts[n]);
      } else {
        InkConcat(Concat(kept), parts[n]);
        ConcatOne(parts[n]);
        ConcatAppend(kept, [parts[n]]);
        kept := kept + [parts[n]];
      }
    }
  }

  // Whatever the text, its printing characters are found in the chunks in order, each once in the part
  // with which its chunk starts. Blank windows are dropped without loss.
  lemma NothingLost(text: string, target: int, overlap: int)
    requires target >= 1 && overlap >= 0
    ensures Lossless(text, target, overlap)
  {
    var step, blocks := StepOf(target, overlap), Blocks(text, target);
    PartsStart(blocks, target, step);
    PartsInk(blocks, step);
    BlocksWellPacked(text, target);
    ParagraphsInk(text);
    var kept := KeptParts(Render(blocks, step, step), Render(blocks, target, step));
    assert Starts(kept, Pieces(text, target, overlap));
  }

  function Xs(n: nat): string {
    seq(n, i => 'x')
  }

  lemma {:induction false} XsUnbroken(n: nat, i: nat)
    requires i <= n
    ensures FirstBreak(Xs(n), i) == None
    decreases n - i
  {
    if i < n {
      XsUnbroken(n, i + 1);
    }
  }

  lemma {:induction false} XsInk(n: nat)
    ensures |Ink(Xs(n))| == n
  {
    if n > 0 {
      assert Xs(n)[1..] == Xs(n - 1);
      XsInk(n - 1);
    }
  }

  lemma {:induction false} InkShorter(s: string)
    ensures |Ink(s)| <= |s|
  {
    if s != [] {
      InkShorter(s[1..]);
    }
  }

  lemma XsOneParagraph(n: nat)
    requires n >= 1
    ensures Paragraphs(Xs(n)) == [Xs(n)]
  {
    var s := Xs(n);
    assert s[0] == s[n - 1] == 'x' && s != "";
    assert Strip(s) == s;
    XsUnbroken(n, 0);
    assert SplitParagraphs(s) == [s];
    assert [s][..0] == [];
    assert Stripped([s]) == Stripped([s][..0]) + [s];
  }

  // One paragraph longer than the target is one block, cut into windows.
  lemma XsOneCut(n: nat, target: int, step: nat)
    requires n >= 1 && n > target && step >= 1
    ensures Render(Blocks(Xs(n), target), target, step) == Windows(Xs(n), target, step, 0)
  {
    XsOneParagraph(n);
    PackAppend([], Xs(n), target);
    assert [] + [Xs(n)] == [Xs(n)];
    assert Blocks(Xs(n), target) == [Cut(Xs(n))];
    RenderAppend([], Cut(Xs(n)), target, step);
    assert [] + [Cut(Xs(n))] == [Cut(Xs(n))];
  }

  lemma PiecesOfXs(n: nat, target: int, overlap: int)
    requires n >= 1 && n > target
    ensures Pieces(Xs(n), target, overlap) == Kept(Windows(Xs(n), target, StepOf(target, overlap), 0))
  {
    XsOneCut(n, target, StepOf(target, overlap));
  }

  lemma OneShortWindow(target: int, step: nat)
    requires step >= 1 && step > target
    ensures var m := Max(0, target); Windows(Xs(m + 1), target, step, 0) == [Xs(m + 1)[..m]]
  {
    var m := Max(0, target);
    var s := Xs(m + 1);
    assert Windows(s, target, step, step) == [];
    assert Slice(s, 0, target) == s[..m];
  }

  // With a step past the target, one paragraph just over the target, or of one character if that is negative,
  // comes out a character short.
  lemma XsCutShort(target: int, overlap: int)
    requires StepOf(target, overlap) > target
    ensures var m := Max(0, target); Pieces(Xs(m + 1), target, overlap) == Kept([Xs(m + 1)[..m]])
  {
    PiecesOfXs(Max(0, target) + 1, target, overlap);
    OneShortWindow(target, StepOf(target, overlap));
  }

  lemma ShortLoses(target: int, overlap: int)
    requires StepOf(target, overlap) > target
    ensures !Lossless(Xs(Max(0, target) + 1), target, overlap)
  {
    var m := Max(0, target);
    XsCutShort(target, overlap);
    XsInk(m + 1);
    var piece := Xs(m + 1)[..m];
    assert [piece][..0] == [];
    forall parts | Starts(parts, Kept([piece])) ensures |Ink(Concat(parts))| <= m {
      InkShorter(Concat(parts));
      if parts != [] {
        assert parts == [parts[0]];
        ConcatOne(parts[0]);
      }
    }
  }

  // Exactly the settings that lose no text.
  lemma LosslessExactly(target: int, overlap: int)
    ensures (forall text :: Lossless(text, target, overlap)) <==> target >= 1 && overlap >= 0
  {
    if target >= 1 && overlap >= 0 {
      forall text ensures Lossless(text, target, overlap) {
        NothingLost(text, target, overlap);
      }
    } else {
      ShortLoses(target, overlap);
    }
  }

  // A negative target is read from the end of the paragraph and leaves a piece of one character.
  lemma NegativeWindows(target: int, step: nat)
    requires target < 0 && step >= 1
    ensures !Bounded(Kept(Windows(Xs(1 - target), target, step, 0)), target)
  {
    var windows := XsFirstWindow(target, step);
    KeptKeeps(windows, "x");
    assert "x" in Kept(windows) && |"x"| > target;
  }

  lemma XsFirstWindow(target: int, step: nat) returns (windows: seq<string>)
    requires target < 0 && step >= 1
    ensures windows == Windows(Xs(1 - target), target, step, 0) && "x" in windows && !Blank("x")
  {
    var s := Xs(1 - target);
    windows := Windows(s, target, step, 0);
    assert windows[0] == s[0..1] == "x";
    assert 'x' in "x" && !IsSpace('x');
  }

  lemma {:induction false} KeptKeeps(pieces: seq<string>, p: string)
    requires p in pieces && !Blank(p)
    ensures p in Kept(pieces)
  {
    if pieces[|pieces| - 1] != p {
      KeptKeeps(pieces[..|pieces| - 1], p);
    }
  }

  // Exactly the targets that bound every piece.
  lemma BoundedExactly(target: int, overlap: int)
    ensures (forall text :: Bounded(Pieces(text, target, overlap), target)) <==> target >= 0
  {
    if target >= 0 {
      forall text ensures Bounded(Pieces(text, target, overlap), target) {
        PiecesBounded(text, target, overlap);
      }
    } else if forall text :: Bounded(Pieces(text, target, overlap), target) {
      assert Bounded(Pieces(Xs(1 - target), target, overlap), target);
      PiecesOfXs(1 - target, target, overlap);
      NegativeWindows(target, StepOf(target, overlap));
    }
  }

  // ---------------------------------------------------------------------------
  // Documents
  // ---------------------------------------------------------------------------

  datatype Locator = OnPage(page: int) | ChunkNumber(n: nat)

  datatype Chunk = Chunk(ordinal: nat, text: string, locator: Locator)

  datatype Page = Page(page: int, text: string)

  function PagePieces(pages: seq<Page>, target: int, overlap: int): seq<(string, Locator)> {
    if pages == [] then []
    else
      var p := pages[|pages| - 1];
      PagePieces(pages[..|pages| - 1], target, overlap) + Located(Pieces(p.text, target, overlap), OnPage(p.page))
  }

  function Located(pieces: seq<string>, at: Locator): seq<(string, Locator)> {
    seq(|pieces|, i requires 0 <= i < |pieces| => (pieces[i], at))
  }

  predicate Numbers(chunks: seq<Chunk>, located: seq<(string, Locator)>) {
    |chunks| == |located| && forall i | 0 <= i < |chunks| :: chunks[i] == Chunk(i, located[i].0, located[i].1)
  }

  method Append(chunks: seq<Chunk>, pieces: seq<string>, at: Locator, ghost before: seq<(string, Locator)>)
      returns (all: seq<Chunk>)
    requires Numbers(chunks, before)
    ensures Numbers(all, before + Located(pieces, at))
  {
    all := chunks;
    var ordinal := |chunks|;
    for i := 0 to |pieces|
      invariant ordinal == |all| && Numbers(all, before + Located(pieces[..i], at))
    {
      all := all + [Chunk(ordinal, pieces[i], at)];
      ordinal := ordinal + 1;
    }
    assert pieces[..|pieces|] == pieces;
  }

  function Enumerated(pieces: seq<string>): seq<(string, Locator)> {
    seq(|pieces|, i requires 0 <= i < |pieces| => (pieces[i], ChunkNumber(i + 1)))
  }

  method Enumerate(pieces: seq<string>) returns (chunks: seq<Chunk>)
    ensures Numbers(chunks, Enumerated(pieces))
  {
    chunks := [];
    for i := 0 to |pieces|
      invariant |chunks| == i && forall j | 0 <= j < i :: chunks[j] == Chunk(j, pieces[j], ChunkNumber(j + 1))
    {
      chunks := chunks + [Chunk(i, pieces[i], ChunkNumber(i + 1))];
    }
  }

  // Pages are used only when there are at least two. Ordinals run from 0 without gaps across all pages.
  method ChunkDocument(text: string, pages: seq<Page>, target: int, overlap: int) returns (chunks: seq<Chunk>)
    ensures Numbers(chunks, if |pages| > 1 then PagePieces(pages, target, overlap)
      else Enumerated(Pieces(text, target, overlap)))
  {
    if |pages| <= 1 {
      var pieces := Split(text, target, overlap);
      chunks := Enumerate(pieces);
      return;
    }
    chunks := [];
    for k := 0 to |pages|
      invariant Numbers(chunks, PagePieces(pages[..k], target, overlap))
    {
      assert pages[..k + 1][..k] == pages[..k];
      var pieces := Split(pages[k].text, target, overlap);
      chunks := Append(chunks, pieces, OnPage(pages[k].page), PagePieces(pages[..k], target, overlap));
    }
    assert pages[..|pages|] == pages;
  }
}
