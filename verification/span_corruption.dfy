/** The span-corruption example builder (CodeswitchDataset.__getitem__ in
    data_augment/codeswitch_model/codeswitch_dataset.py): a document is truncated to a
    drawn length, a drawn span in its middle is cut out and moved to the end behind a
    MASK character, the result is padded with PAD characters to block_size + 1, and the
    input and target strings are that string without its last and without its first
    character. The two random draws, MASK, PAD and the character-to-id table are
    parameters. */
module SpanCorruption {
  import opened Common
  import opened Strings

  /** The draws random.randint can return: the truncated length t in
      [4, block_size * 7 // 8] and the masked length m in [1, t // 2 - 1]. */
  predicate ValidDraws(blockSize: int, t: int, m: int) {
    4 <= t <= blockSize * 7 / 8 && 1 <= m <= t / 2 - 1
  }

  /** (truncated_len - masked_len) // 2 - 1 */
  function MaskedStart(t: int, m: int): int {
    (t - m) / 2 - 1
  }

  /** Under valid draws the masked span starts inside the truncated length and ends
      within it. */
  lemma MaskedStartInRange(blockSize: int, t: int, m: int)
    requires ValidDraws(blockSize, t, m)
    ensures 0 <= MaskedStart(t, m) && MaskedStart(t, m) + m <= t
  {
  }

  /** The three pieces of the truncated document. */
  datatype Pieces = Pieces(prefix: string, masked: string, suffix: string)

  /** The truncated document doc[:t]. */
  function Truncated(doc: string, t: nat): string {
    Slice(doc, 0, t)
  }

  /** prefix, masked_content and suffix. */
  function Split3(doc: string, blockSize: int, t: nat, m: nat): Pieces
    requires ValidDraws(blockSize, t, m)
  {
    MaskedStartInRange(blockSize, t, m);
    var truncated := Truncated(doc, t);
    var start := MaskedStart(t, m) as nat;
    Pieces(Slice(truncated, 0, start), Slice(truncated, start, start + m), Slice(truncated, start + m, |truncated|))
  }

  /** The rearranged string before padding. */
  function MaskedString(doc: string, blockSize: int, t: nat, m: nat, mask: char): string
    requires ValidDraws(blockSize, t, m)
  {
    var p := Split3(doc, blockSize, t, m);
    p.prefix + [mask] + p.suffix + [mask] + p.masked
  }

  /** masked_string += PAD * (block_size - len(masked_string) + 1) */
  function Padded(s: string, blockSize: int, pad: char): string {
    s + Repeat(pad, blockSize - |s| + 1)
  }

  /** s[:-1] */
  function DropLast(s: string): string {
    if s == [] then [] else s[..|s| - 1]
  }

  /** s[1:] */
  function DropFirst(s: string): string {
    if s == [] then [] else s[1..]
  }

  /** The input and target strings of one example. */
  function Example(doc: string, blockSize: int, t: nat, m: nat, mask: char, pad: char): (string, string)
    requires ValidDraws(blockSize, t, m)
  {
    var s := Padded(MaskedString(doc, blockSize, t, m, mask), blockSize, pad);
    (DropLast(s), DropFirst(s))
  }

  /** [stoi[ch] for ch in s]: KeyError at the first character without an id. */
  function EncodeChars(s: string, stoi: map<char, int>): (r: Result<seq<int>>)
    ensures r.Ok? <==> forall i :: 0 <= i < |s| ==> s[i] in stoi
    ensures r.Err? ==> r.error == KeyError
    ensures r.Ok? ==> |r.value| == |s| && forall i :: 0 <= i < |s| ==> r.value[i] == stoi[s[i]]
  {
    if s == [] then Ok([])
    else
      match EncodeChars(s[..|s| - 1], stoi)
      case Err(e) => Err(e)
      case Ok(ids) =>
        if s[|s| - 1] in stoi then Ok(ids + [stoi[s[|s| - 1]]]) else Err(KeyError)
  }

  /** random.randint(4, block_size * 7 // 8) raises ValueError: its range is empty. Once
      the first draw succeeds, t >= 4 and the second range [1, t // 2 - 1] is never empty. */
  predicate TruncRangeEmpty(blockSize: int) {
    blockSize * 7 / 8 < 4
  }

  /** __getitem__: ValueError when block_size leaves nothing to draw; otherwise the
      encoded input and target of one example, both block_size long and the target the
      input shifted by one, or KeyError when a character of either has no id. */
  function GetItem(doc: string, blockSize: int, t: nat, m: nat, mask: char, pad: char, stoi: map<char, int>)
    : (r: Result<(seq<int>, seq<int>)>)
    requires TruncRangeEmpty(blockSize) || ValidDraws(blockSize, t, m)
    ensures TruncRangeEmpty(blockSize) ==> r == Err(ValueError)
    ensures !TruncRangeEmpty(blockSize) ==>
      var (x, y) := Example(doc, blockSize, t, m, mask, pad);
      && (r.Ok? <==> (forall i :: 0 <= i < |x| ==> x[i] in stoi) && (forall i :: 0 <= i < |y| ==> y[i] in stoi))
      && (r.Err? ==> r.error == KeyError)
      && (r.Ok? ==>
            && |r.value.0| == blockSize && |r.value.1| == blockSize
            && (forall i :: 0 <= i < blockSize ==> r.value.0[i] == stoi[x[i]] && r.value.1[i] == stoi[y[i]])
            && forall i :: 0 <= i < blockSize - 1 ==> r.value.1[i] == r.value.0[i + 1])
  {
    if TruncRangeEmpty(blockSize) then Err(ValueError)
    else
      ExampleShift(doc, blockSize, t, m, mask, pad);
      var (x, y) := Example(doc, blockSize, t, m, mask, pad);
      match EncodeChars(x, stoi)
      case Err(e) => Err(e)
      case Ok(xs) =>
        match EncodeChars(y, stoi)
        case Err(e) => Err(e)
        case Ok(ys) => Ok((xs, ys))
  }

  // ---------------------------------------------------------------------------
  // Properties

  /** The three pieces are the truncated document cut in order: nothing is lost or
      duplicated, and the masked piece has the drawn length when the document reaches
      that far. */
  lemma PiecesRebuild(doc: string, blockSize: int, t: nat, m: nat)
    requires ValidDraws(blockSize, t, m)
    ensures var p, truncated := Split3(doc, blockSize, t, m), Truncated(doc, t);
      && p.prefix + p.masked + p.suffix == truncated
      && |truncated| == Min(t, |doc|)
      && |p.masked| <= m
      && (MaskedStart(t, m) + m <= |doc| ==> |p.masked| == m)
  {
    MaskedStartInRange(blockSize, t, m);
    var start := MaskedStart(t, m) as nat;
    SliceThree(Truncated(doc, t), start, start + m);
  }

  /** Cutting a sequence at two points and joining the three slices gives it back; the
      middle slice has its full length when the sequence reaches its end. */
  lemma SliceThree<T>(s: seq<T>, a: nat, b: nat)
    requires a <= b
    ensures Slice(s, 0, a) + Slice(s, a, b) + Slice(s, b, |s|) == s
    ensures |Slice(s, a, b)| <= b - a
    ensures b <= |s| ==> |Slice(s, a, b)| == b - a
  {
    if b <= |s| {
      assert s == s[..a] + s[a..b] + s[b..];
    } else if a <= |s| {
      assert s == s[..a] + s[a..];
    }
  }

  /** The rearranged string is two characters longer than the truncated document and so
      never longer than block_size + 1. */
  lemma MaskedStringLength(doc: string, blockSize: int, t: nat, m: nat, mask: char)
    requires ValidDraws(blockSize, t, m)
    ensures |MaskedString(doc, blockSize, t, m, mask)| == |Truncated(doc, t)| + 2 <= blockSize + 1
  {
    PiecesRebuild(doc, blockSize, t, m);
  }

  /** Padding makes a string of at most block_size + 1 characters exactly that long,
      keeping it as the prefix with PAD after it; a longer string is left alone. */
  lemma PaddedShape(s: string, blockSize: int, pad: char)
    ensures |s| <= blockSize + 1 ==> |Padded(s, blockSize, pad)| == blockSize + 1
    ensures |s| > blockSize + 1 ==> Padded(s, blockSize, pad) == s
    ensures Padded(s, blockSize, pad)[..|s|] == s
    ensures forall i :: |s| <= i < |Padded(s, blockSize, pad)| ==> Padded(s, blockSize, pad)[i] == pad
  {
    RepeatAt(pad, blockSize - |s| + 1);
  }

  /** The input and the target both have block_size characters, and the target is the
      input shifted by one: target i is input i + 1, the next character to predict. */
  lemma ExampleShift(doc: string, blockSize: int, t: nat, m: nat, mask: char, pad: char)
    requires ValidDraws(blockSize, t, m)
    ensures var (x, y) := Example(doc, blockSize, t, m, mask, pad);
      var s := Padded(MaskedString(doc, blockSize, t, m, mask), blockSize, pad);
      && |x| == |y| == blockSize
      && x == s[..blockSize] && y == s[1..]
      && forall i :: 0 <= i < |x| - 1 ==> y[i] == x[i + 1]
  {
    MaskedStringLength(doc, blockSize, t, m, mask);
    PaddedShape(MaskedString(doc, blockSize, t, m, mask), blockSize, pad);
  }

  /** When MASK does not occur in the document, splitting the rearranged string on MASK
      gives back prefix, suffix and masked content, from which the truncated document
      is restored: the corruption loses nothing. */
  lemma SpanRestore(doc: string, blockSize: int, t: nat, m: nat, mask: char)
    requires ValidDraws(blockSize, t, m)
    requires mask !in Truncated(doc, t)
    ensures var fs, p := SplitOn(MaskedString(doc, blockSize, t, m, mask), mask), Split3(doc, blockSize, t, m);
      && fs == [p.prefix, p.suffix, p.masked]
      && fs[0] + fs[2] + fs[1] == Truncated(doc, t)
  {
    var p := Split3(doc, blockSize, t, m);
    PiecesRebuild(doc, blockSize, t, m);
    NotInPieces(p.prefix, p.masked, p.suffix, mask);
    var s := MaskedString(doc, blockSize, t, m, mask);
    assert s == p.prefix + [mask] + (p.suffix + [mask] + p.masked);
    SplitOnCons(p.prefix, p.suffix + [mask] + p.masked, mask);
    SplitOnCons(p.suffix, p.masked, mask);
    SplitOnNone(p.masked, mask);
  }

  /** A character missing from a concatenation is missing from each part. */
  lemma NotInPieces(a: string, b: string, c: string, x: char)
    requires x !in a + b + c
    ensures x !in a && x !in b && x !in c
  {
  }
}
