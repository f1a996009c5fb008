/**
 Chunk splitting, apps/api/captureos/ingestion/chunking.py: paragraphs are packed greedily up to the
 target length and over-long ones are cut into overlapping windows.
 */
module Chunking {
  import opened Wrappers
  import opened Text

  // ---------------------------------------------------------------------------
  // Paragraphs: re.split(r"\n\s*\n", text)
  // ---------------------------------------------------------------------------

  // The pattern matches s[i..k + 1].
  predicate IsBreak(s: string, i: nat, k: nat) {
    i < k < |s| && s[i] == '\n' && s[k] == '\n' && Blank(s[i + 1..k])
  }

  // The last newline of the white space that starts at j: where the greedy \s* followed by \n ends.
  function LastNewline(s: string, j: nat): (k: Option<nat>)
    requires j <= |s|
    ensures k.Some? ==> j <= k.value < |s|
    decreases |s| - j
  {
    if j == |s| || !IsSpace(s[j]) then None
    else if LastNewline(s, j + 1).Some? then LastNewline(s, j + 1)
    else if s[j] == '\n' then Some(j) else None
  }

  function FirstBreak(s: string, i: nat): (r: Option<(nat, nat)>)
    requires i <= |s|
    ensures r.Some? ==> i <= r.value.0 < r.value.1 < |s|
    decreases |s| - i
  {
    if i == |s| then None
    else if s[i] == '\n' && LastNewline(s, i + 1).Some? then Some((i, LastNewline(s, i + 1).value))
    else FirstBreak(s, i + 1)
  }

  lemma {:induction false} LastNewlineMeaning(s: string, j: nat)
    requires j <= |s|
    ensures match LastNewline(s, j)
      case None => forall k | j <= k < |s| && s[k] == '\n' :: !Blank(s[j..k])
      case Some(k) => j <= k < |s| && s[k] == '\n' && Blank(s[j..k])
                      && forall k' | k < k' < |s| && s[k'] == '\n' :: !Blank(s[j..k'])
    decreases |s| - j
  {
    if j < |s| {
      LastNewlineMeaning(s, j + 1);
      forall k | j < k < |s| ensures Blank(s[j..k]) <==> IsSpace(s[j]) && Blank(s[j + 1..k]) {
        assert s[j..k] == [s[j]] + s[j + 1..k];
      }
    }
  }

  // The break found is the leftmost one, and the longest that starts there.
  lemma {:induction false} FirstBreakMeaning(s: string, i: nat)
    requires i <= |s|
    ensures match FirstBreak(s, i)
      case None => forall a, b | i <= a :: !IsBreak(s, a, b)
      case Some((a, b)) => i <= a && IsBreak(s, a, b) && (forall c, d | i <= c < a :: !IsBreak(s, c, d))
                           && (forall d | b < d :: !IsBreak(s, a, d))
    decreases |s| - i
  {
    if i < |s| {
      FirstBreakMeaning(s, i + 1);
      LastNewlineMeaning(s, i + 1);
    }
  }

  function SplitParagraphs(s: string): seq<string>
    decreases |s|
  {
    match FirstBreak(s, 0)
    case None => [s]
    case Some((i, k)) => [s[..i]] + SplitParagraphs(s[k + 1..])
  }

  function Concat(pieces: seq<string>): string {
    if pieces == [] then [] else Concat(pieces[..|pieces| - 1]) + pieces[|pieces| - 1]
  }

  lemma {:induction false} ConcatAppend(a: seq<string>, b: seq<string>)
    ensures Concat(a + b) == Concat(a) + Concat(b)
  {
    if b == [] {
      assert a + b == a;
    } else {
      assert (a + b)[..|a + b| - 1] == a + b[..|b| - 1];
      ConcatAppend(a, b[..|b| - 1]);
    }
  }

  lemma ConcatOne(x: string)
    ensures Concat([x]) == x
  {
    assert [x][..0] == [];
  }

  lemma BreakIsBlank(s: string, i: nat, k: nat)
    requires IsBreak(s, i, k)
    ensures Blank(s[i..k + 1])
  {
    forall j | i <= j <= k ensures IsSpace(s[j]) {
      if i < j < k {
        assert s[j] in s[i + 1..k];
      }
    }
  }

  // What is cut out at the first break is blank.
  lemma CutIsBlank(s: string)
    ensures var found := FirstBreak(s, 0);
      found.Some? ==> Blank(s[found.value.0..found.value.1 + 1])
  {
    FirstBreakMeaning(s, 0);
    var found := FirstBreak(s, 0);
    if found.Some? {
      BreakIsBlank(s, found.value.0, found.value.1);
    }
  }

  lemma CutKeepsInk(s: string, i: nat, k: nat, tail: seq<string>)
    requires i < k < |s| && Blank(s[i..k + 1]) && Ink(Concat(tail)) == Ink(s[k + 1..])
    ensures Ink(Concat([s[..i]] + tail)) == Ink(s)
  {
    var head, gap, rest := s[..i], s[i..k + 1], s[k + 1..];
    ConcatOne(head);
    ConcatAppend([head], tail);
    InkConcat(head, Concat(tail));
    assert s == head + gap + rest;
    InkAround(head, gap, rest);
  }

  // Splitting drops only white space.
  lemma {:induction false} ParagraphsKeepInk(s: string)
    ensures Ink(Concat(SplitParagraphs(s))) == Ink(s)
    decreases |s|
  {
    var found := FirstBreak(s, 0);
    if found.None? {
      ConcatOne(s);
    } else {
      var rest := s[found.value.1 + 1..];
      ParagraphsKeepInk(rest);
      CutIsBlank(s);
      CutKeepsInk(s, found.value.0, found.value.1, SplitParagraphs(rest));
    }
  }

  ghost predicate Unbroken(s: string) {
    forall i, k :: !IsBreak(s, i, k)
  }

  // No paragraph still has a blank line in it.
  lemma {:induction false} ParagraphsUnbroken(s: string)
    ensures forall p | p in SplitParagraphs(s) :: Unbroken(p)
    decreases |s|
  {
    FirstBreakMeaning(s, 0);
    match FirstBreak(s, 0)
    case None =>
    case Some((i, k)) =>
      ParagraphsUnbroken(s[k + 1..]);
      forall a: nat, b: nat ensures !IsBreak(s[..i], a, b) {
        if a < b < i {
          assert s[..i][a + 1..b] == s[a + 1..b];
          assert !IsBreak(s, a, b);
        }
      }
  }

  // The paragraphs as they are packed: stripped, empty ones dropped.
  function Stripped(raw: seq<string>): seq<string> {
    if raw == [] then []
    else
      var p := Strip(raw[|raw| - 1]);
      Stripped(raw[..|raw| - 1]) + if p == "" then [] else [p]
  }

  function Paragraphs(text: string): seq<string> {
    if Strip(text) == "" then [] else Stripped(SplitParagraphs(Strip(text)))
  }

  lemma {:induction false} StrippedInk(raw: seq<string>)
    ensures Ink(Concat(Stripped(raw))) == Ink(Concat(raw))
    ensures forall p | p in Stripped(raw) :: p != ""
  {
    if raw != [] {
      var front, p := raw[..|raw| - 1], raw[|raw| - 1];
      StrippedInk(front);
      InkStrip(p);
      InkConcat(Concat(front), p);
      if Strip(p) == "" {
        assert Stripped(raw) == Stripped(front) && Ink(p) == [];
      } else {
        InkConcat(Concat(Stripped(front)), Strip(p));
        ConcatOne(Strip(p));
        ConcatAppend(Stripped(front), [Strip(p)]);
      }
    }
  }

  lemma ParagraphsInk(text: string)
    ensures Ink(Concat(Paragraphs(text))) == Ink(text)
    ensures forall p | p in Paragraphs(text) :: p != ""
  {
    InkStrip(text);
    if Strip(text) != "" {
      StrippedInk(SplitParagraphs(Strip(text)));
      ParagraphsKeepInk(Strip(text));
    }
  }

  // ---------------------------------------------------------------------------
  // Packing
  // ---------------------------------------------------------------------------

  // A run of whole paragraphs that share a piece, or one paragraph cut into windows.
  datatype Block = Packed(paras: seq<string>) | Cut(para: string)

  datatype Packing = Packing(closed: seq<Block>, open: seq<string>)

  function Join(paras: seq<string>): string {
    if paras == [] then ""
    else if |paras| == 1 then paras[0]
    else Join(paras[..|paras| - 1]) + "\n\n" + paras[|paras| - 1]
  }

  function Close(k: Packing): seq<Block> {
    k.closed + if k.open == [] then [] else [Packed(k.open)]
  }

  function Place(k: Packing, para: string, target: int): Packing {
    if |Join(k.open)| + |para| + 2 <= target then Packing(k.closed, k.open + [para])
    else if |para| > target then Packing(Close(k) + [Cut(para)], [])
    else Packing(Close(k), [para])
  }

  function Pack(paras: seq<string>, target: int): Packing {
    if paras == [] then Packing([], [])
    else Place(Pack(paras[..|paras| - 1], target), paras[|paras| - 1], target)
  }

  function Blocks(text: string, target: int): seq<Block> {
    Close(Pack(Paragraphs(text), target))
  }

  function StepOf(target: int, overlap: int): nat {
    Max(1, target - overlap)
  }

  // Python's s[i:j], where a negative j counts from the end.
  function Slice(s: string, i: nat, j: int): string {
    var end := if j < 0 then Max(0, |s| + j) else Min(j, |s|);
    if i < end then s[i..end] else ""
  }

  // para[j : j + target] for j in range(from, len(para), step)
  function Windows(para: string, target: int, step: nat, from: nat): seq<string>
    requires step >= 1
    decreases |para| - from
  {
    if from >= |para| then [] else [Slice(para, from, from + target)] + Windows(para, target, step, from + step)
  }

  function PiecesOf(b: Block, target: int, step: nat): seq<string>
    requires step >= 1
  {
    match b
    case Packed(paras) => [Join(paras)]
    case Cut(para) => Windows(para, target, step, 0)
  }

  function Render(blocks: seq<Block>, target: int, step: nat): seq<string>
    requires step >= 1
  {
    if blocks == [] then []
    else
      Render(blocks[..|blocks| - 1], target, step) + PiecesOf(blocks[|blocks| - 1], target, step)
  }

  function Kept(pieces: seq<string>): seq<string> {
    if pieces == [] then []
    else Kept(pieces[..|pieces| - 1]) + if Blank(pieces[|pieces| - 1]) then [] else [pieces[|pieces| - 1]]
  }

  function Pieces(text: string, target: int, overlap: int): seq<string> {
    Kept(Render(Blocks(text, target), target, StepOf(target, overlap)))
  }

  lemma RenderAppend(blocks: seq<Block>, b: Block, target: int, step: nat)
    requires step >= 1
    ensures Render(blocks + [b], target, step) ==
      Render(blocks, target, step) + PiecesOf(b, target, step)
  {
    assert (blocks + [b])[..|blocks|] == blocks;
  }

  lemma JoinNotEmpty(paras: seq<string>)
    requires forall p | p in paras :: p != ""
    ensures Join(paras) == "" <==> paras == []
  {
    if |paras| == 1 {
      assert paras[0] in paras;
    }
  }

  lemma RenderClose(k: Packing, target: int, step: nat)
    requires step >= 1 && forall p | p in k.open :: p != ""
    ensures Render(Close(k), target, step) ==
      Render(k.closed, target, step) + if Join(k.open) != "" then [Join(k.open)] else []
  {
    JoinNotEmpty(k.open);
    if k.open != [] {
      RenderAppend(k.closed, Packed(k.open), target, step);
    } else {
      assert Close(k) == k.closed;
    }
  }

  lemma JoinAppend(paras: seq<string>, para: string)
    requires forall p | p in paras :: p != ""
    ensures Join(paras + [para]) == if Join(paras) != "" then Join(paras) + "\n\n" + para else para
  {
    JoinNotEmpty(paras);
    assert (paras + [para])[..|paras|] == paras;
  }

  lemma PackAppend(paras: seq<string>, para: string, target: int)
    ensures Pack(paras + [para], target) == Place(Pack(paras, target), para, target)
  {
    assert (paras + [para])[..|paras|] == paras;
  }

  // The buffer and output after some paragraphs.
  ghost predicate Packs(done: seq<string>, target: int, step: nat, buf: string, out: seq<string>)
    requires step >= 1
  {
    var k := Pack(done, target);
    && buf == Join(k.open) && out == Render(k.closed, target, step)
    && forall p | p in k.open :: p != ""
  }

  lemma PlacedFits(done: seq<string>, para: string, target: int, step: nat, buf: string, out: seq<string>)
    requires step >= 1 && para != "" && Packs(done, target, step, buf, out) && |buf| + |para| + 2 <= target
    ensures Packs(done + [para], target, step, if buf != "" then buf + "\n\n" + para else para, out)
  {
    PackAppend(done, para, target);
    JoinAppend(Pack(done, target).open, para);
  }

  function Flushed(out: seq<string>, buf: string): seq<string> {
    if buf != "" then out + [buf] else out
  }

  lemma PlacedOpens(done: seq<string>, para: string, target: int, step: nat, buf: string, out: seq<string>)
    requires step >= 1 && para != "" && Packs(done, target, step, buf, out) && |buf| + |para| + 2 > target >= |para|
    ensures Packs(done + [para], target, step, para, Flushed(out, buf))
  {
    PackAppend(done, para, target);
    RenderClose(Pack(done, target), target, step);
  }

  lemma RenderCut(k: Packing, para: string, target: int, step: nat)
    requires step >= 1 && forall p | p in k.open :: p != ""
    ensures Render(Close(k) + [Cut(para)], target, step) ==
      Flushed(Render(k.closed, target, step), Join(k.open)) + Windows(para, target, step, 0)
  {
    RenderAppend(Close(k), Cut(para), target, step);
    RenderClose(k, target, step);
  }

  lemma PlacedCut(done: seq<string>, para: string, target: int, step: nat, buf: string, out: seq<string>)
    requires step >= 1 && para != "" && Packs(done, target, step, buf, out) && |para| > target
    ensures Packs(done + [para], target, step, "", Flushed(out, buf) + Windows(para, target, step, 0))
  {
    var k := Pack(done, target);
    RenderCut(k, para, target, step);
    PackAppend(done, para, target);
    assert Join([]) == "";
  }

  method CutWindows(para: string, target: int, step: nat) returns (out: seq<string>)
    requires step >= 1
    ensures out == Windows(para, target, step, 0)
  {
    out := [];
    var j := 0;
    while j < |para|
      invariant out + Windows(para, target, step, j) == Windows(para, target, step, 0)
      decreases |para| - j
    {
      ghost var w := Windows(para, target, step, j);
      assert out + w == (out + [w[0]]) + w[1..];
      out := out + [Slice(para, j, j + target)];
      j := j + step;
    }
  }

  method DropBlank(pieces: seq<string>) returns (kept: seq<string>)
    ensures kept == Kept(pieces)
  {
    kept := [];
    for i := 0 to |pieces|
      invariant kept == Kept(pieces[..i])
    {
      assert pieces[..i + 1][..i] == pieces[..i];
      if !Blank(pieces[i]) {
        kept := kept + [pieces[i]];
      }
    }
    assert pieces[..|pieces|] == pieces;
  }

  lemma StrippedNext(raw: seq<string>, i: nat)
    requires i < |raw|
    ensures Stripped(raw[..i + 1]) == if Strip(raw[i]) == "" then Stripped(raw[..i])
      else Stripped(raw[..i]) + [Strip(raw[i])]
  {
    assert raw[..i + 1][..i] == raw[..i];
  }

  // The splitting loop with its buffer.
  method Split(text: string, target: int, overlap: int) returns (out: seq<string>)
    ensures out == Pieces(text, target, overlap)
  {
    var stripped := Strip(text);
    if stripped == "" {
      return [];
    }
    var step := Max(1, target - overlap);
    var raw := SplitParagraphs(stripped);
    out := SplitLoop(raw, target, step);
    out := DropBlank(out);
  }

  method SplitLoop(raw: seq<string>, target: int, step: nat) returns (out: seq<string>)
    requires step >= 1
    ensures out == Render(Close(Pack(Stripped(raw), target)), target, step)
  {
    out := [];
    var buf := "";
    for i := 0 to |raw|
      invariant Packs(Stripped(raw[..i]), target, step, buf, out)
    {
      StrippedNext(raw, i);
      ghost var done := Stripped(raw[..i]);
      var para := Strip(raw[i]);
      if para == "" {
        continue;
      }
      if |buf| + |para| + 2 <= target {
        PlacedFits(done, para, target, step, buf, out);
        buf := if buf != "" then buf + "\n\n" + para else para;
      } else if |para| > target {
        PlacedCut(done, para, target, step, buf, out);
        var windows := CutWindows(para, target, step);
        out, buf := Flushed(out, buf) + windows, "";
      } else {
        PlacedOpens(done, para, target, step, buf, out);
        out, buf := Flushed(out, buf), para;
      }
    }
    assert raw[..|raw|] == raw;
    RenderClose(Pack(Stripped(raw), target), target, step);
    out := Flushed(out, buf);
  }
}
