/** The BERT input assembly of the code-switched XNLI model (Model.get_info in
    model/XNLI/all_codeswitch.py): one id row per example, `[CLS] premise [SEP]
    hypothesis [SEP]` with every whitespace word encoded separately, the position where
    each word's sub-tokens start, and the rows padded to a common length with their
    attention masks and token type ids. The tokenizer's encode is a parameter. */
module BertInputs {
  import opened Common
  import opened Strings
  import opened XnliData

  /** tokener.encode(word, add_special_tokens=False) */
  type Encoder = string -> seq<int>

  /** The ids of the words, each word's encoding after the previous ones. */
  function Enc(words: seq<string>, encode: Encoder): seq<int> {
    if words == [] then []
    else Enc(words[..|words| - 1], encode) + encode(words[|words| - 1])
  }

  /** The start of each word's encoding when the encodings are laid out from `base` on. */
  function Locs(words: seq<string>, encode: Encoder, base: nat): (locs: seq<nat>)
    ensures |locs| == |words|
  {
    if words == [] then []
    else Locs(words[..|words| - 1], encode, base) + [base + |Enc(words[..|words| - 1], encode)|]
  }

  /** The unpadded id row of an example. */
  function Row(x: Example, encode: Encoder, cls: int, sep: int): (r: seq<int>)
    ensures var ep, eh := Enc(SplitWs(x.premise), encode), Enc(SplitWs(x.hypothesis), encode);
      && |r| == |ep| + |eh| + 3
      && r[0] == cls && r[|ep| + 1] == sep && r[|r| - 1] == sep
      && r[1..|ep| + 1] == ep && r[|ep| + 2..|r| - 1] == eh
  {
    [cls] + Enc(SplitWs(x.premise), encode) + [sep] + Enc(SplitWs(x.hypothesis), encode) + [sep]
  }

  /** The token locations of an example: the premise words from 1 on, the hypothesis words
      after the first separator. */
  function RowLocs(x: Example, encode: Encoder): (locs: seq<nat>)
    ensures |locs| == |SplitWs(x.premise)| + |SplitWs(x.hypothesis)|
  {
    var p := SplitWs(x.premise);
    Locs(p, encode, 1) + Locs(SplitWs(x.hypothesis), encode, |Enc(p, encode)| + 2)
  }

  /** The length of the longest row. */
  function MaxLen(rows: seq<seq<int>>): (n: nat)
    requires rows != []
    ensures forall k :: 0 <= k < |rows| ==> |rows[k]| <= n
    ensures exists k :: 0 <= k < |rows| && |rows[k]| == n
  {
    if |rows| == 1 then |rows[0]|
    else
      var m := MaxLen(rows[..|rows| - 1]);
      assert forall k :: 0 <= k < |rows| - 1 ==> rows[..|rows| - 1][k] == rows[k];
      if |rows[|rows| - 1]| > m then |rows[|rows| - 1]| else m
  }

  /** What get_info returns: the token locations, the padded id rows, the type ids and
      the attention masks; max() on an empty batch raises ValueError. */
  datatype Info = Info(tokenLoc: seq<seq<nat>>, tokenIds: seq<seq<int>>, typeIds: seq<seq<int>>, maskIds: seq<seq<int>>)

  /** The unpadded rows of a batch. */
  function Rows(batch: seq<Example>, encode: Encoder, cls: int, sep: int): (rows: seq<seq<int>>)
    ensures |rows| == |batch|
  {
    seq(|batch|, k requires 0 <= k < |batch| => Row(batch[k], encode, cls, sep))
  }

  /** The token locations of a batch. */
  function AllLocs(batch: seq<Example>, encode: Encoder): (locs: seq<seq<nat>>)
    ensures |locs| == |batch|
  {
    seq(|batch|, k requires 0 <= k < |batch| => RowLocs(batch[k], encode))
  }

  /** A row padded to n ids. */
  function PadRow(row: seq<int>, n: nat, pad: int): seq<int> {
    row + Repeat(pad, n - |row|)
  }

  /** The attention mask of a row of length len padded to n. */
  function MaskRow(len: nat, n: nat): seq<int> {
    Repeat(1, len) + Repeat(0, n - len)
  }

  /** Every row padded to n ids. */
  function PadAll(rows: seq<seq<int>>, n: nat, pad: int): (r: seq<seq<int>>)
    ensures |r| == |rows| && forall k :: 0 <= k < |rows| ==> r[k] == PadRow(rows[k], n, pad)
  {
    seq(|rows|, k requires 0 <= k < |rows| => PadRow(rows[k], n, pad))
  }

  /** A row of n zero type ids for every row. */
  function TypeAll(rows: seq<seq<int>>, n: nat): (r: seq<seq<int>>)
    ensures |r| == |rows| && forall k :: 0 <= k < |rows| ==> r[k] == Repeat(0, n)
  {
    seq(|rows|, _ => Repeat(0, n))
  }

  /** The attention mask of every row padded to n. */
  function MaskAll(rows: seq<seq<int>>, n: nat): (r: seq<seq<int>>)
    ensures |r| == |rows| && forall k :: 0 <= k < |rows| ==> r[k] == MaskRow(|rows[k]|, n)
  {
    seq(|rows|, k requires 0 <= k < |rows| => MaskRow(|rows[k]|, n))
  }

  /** The specification of get_info. */
  function Inputs(batch: seq<Example>, encode: Encoder, cls: int, sep: int, pad: int): (r: Result<Info>)
    ensures r.Err? <==> batch == []
    ensures r.Err? ==> r.error == ValueError
    ensures r.Ok? ==>
      && |r.value.tokenLoc| == |batch| && |r.value.tokenIds| == |batch|
      && |r.value.typeIds| == |batch| && |r.value.maskIds| == |batch|
  {
    if batch == [] then Err(ValueError)
    else
      var rows := Rows(batch, encode, cls, sep);
      var n := MaxLen(rows);
      Ok(Info(AllLocs(batch, encode),
              PadAll(rows, n, pad), TypeAll(rows, n), MaskAll(rows, n)))
  }

  // ---------------------------------------------------------------------------
  // The method

  /** One of the two word loops: each word's encoding is appended and its start recorded;
      curIdx follows the length of the id list. */
  method EncodeWords(words: seq<string>, encode: Encoder, ids0: seq<int>, locs0: seq<nat>, idx0: nat)
    returns (ids: seq<int>, locs: seq<nat>, curIdx: nat)
    requires idx0 == |ids0|
    ensures ids == ids0 + Enc(words, encode)
    ensures locs == locs0 + Locs(words, encode, |ids0|)
    ensures curIdx == |ids|
  {
    ids, locs, curIdx := ids0, locs0, idx0;
    for i := 0 to |words|
      invariant ids == ids0 + Enc(words[..i], encode)
      invariant locs == locs0 + Locs(words[..i], encode, |ids0|)
      invariant curIdx == |ids|
    {
      assert words[..i + 1][..i] == words[..i];
      var tmpIds := encode(words[i]);
      ids := ids + tmpIds;
      locs := locs + [curIdx];
      curIdx := curIdx + |tmpIds|;
    }
    assert words[..|words|] == words;
  }

  /** The id row and the token locations of one example. */
  method EncodeExample(x: Example, encode: Encoder, cls: int, sep: int) returns (ids: seq<int>, locs: seq<nat>)
    ensures ids == Row(x, encode, cls, sep)
    ensures locs == RowLocs(x, encode)
  {
    var p, h := SplitWs(x.premise), SplitWs(x.hypothesis);
    var ids1, locs1, idx1 := EncodeWords(p, encode, [cls], [], 1);
    var ids2 := ids1 + [sep];
    var ids3, locs3, _ := EncodeWords(h, encode, ids2, locs1, idx1 + 1);
    ids, locs := ids3 + [sep], locs3;
    assert ids2 == [cls] + Enc(p, encode) + [sep];
  }

  /** The first loop of get_info: the id row and token locations of every example. */
  method EncodeBatch(batch: seq<Example>, encode: Encoder, cls: int, sep: int)
    returns (tokenIds: seq<seq<int>>, tokenLoc: seq<seq<nat>>)
    ensures tokenIds == Rows(batch, encode, cls, sep)
    ensures tokenLoc == AllLocs(batch, encode)
  {
    tokenIds, tokenLoc := [], [];
    for k := 0 to |batch|
      invariant |tokenIds| == k && |tokenLoc| == k
      invariant tokenIds == Rows(batch[..k], encode, cls, sep)
      invariant tokenLoc == AllLocs(batch[..k], encode)
    {
      RowsSnoc(batch, encode, cls, sep, k);
      AllLocsSnoc(batch, encode, k);
      var perTokenIds, perTokenLoc := EncodeExample(batch[k], encode, cls, sep);
      tokenIds := tokenIds + [perTokenIds];
      tokenLoc := tokenLoc + [perTokenLoc];
    }
    assert batch[..|batch|] == batch;
  }

  /** One more example: its row and locations come after those of the examples before. */
  lemma RowsSnoc(batch: seq<Example>, encode: Encoder, cls: int, sep: int, k: nat)
    requires k < |batch|
    ensures Rows(batch[..k + 1], encode, cls, sep) == Rows(batch[..k], encode, cls, sep) + [Row(batch[k], encode, cls, sep)]
  {
    var b := batch[..k + 1];
    assert forall j :: 0 <= j < k ==> b[j] == batch[..k][j];
  }

  lemma AllLocsSnoc(batch: seq<Example>, encode: Encoder, k: nat)
    requires k < |batch|
    ensures AllLocs(batch[..k + 1], encode) == AllLocs(batch[..k], encode) + [RowLocs(batch[k], encode)]
  {
    var b := batch[..k + 1];
    assert forall j :: 0 <= j < k ==> b[j] == batch[..k][j];
  }

  /** The second loop of get_info: every row padded to maxLen, with its mask and type ids. */
  method PadRows(rows: seq<seq<int>>, maxLen: nat, pad: int)
    returns (tokenIds: seq<seq<int>>, typeIds: seq<seq<int>>, maskIds: seq<seq<int>>)
    ensures tokenIds == PadAll(rows, maxLen, pad)
    ensures typeIds == TypeAll(rows, maxLen)
    ensures maskIds == MaskAll(rows, maxLen)
  {
    tokenIds, maskIds, typeIds := rows, [], [];
    for k := 0 to |tokenIds|
      invariant |tokenIds| == |rows| && |maskIds| == k && |typeIds| == k
      invariant forall j :: 0 <= j < k ==> tokenIds[j] == PadRow(rows[j], maxLen, pad)
      invariant forall j :: k <= j < |rows| ==> tokenIds[j] == rows[j]
      invariant forall j :: 0 <= j < k ==> maskIds[j] == MaskRow(|rows[j]|, maxLen)
      invariant forall j :: 0 <= j < k ==> typeIds[j] == Repeat(0, maxLen)
    {
      var perTokenIds := tokenIds[k];
      var perMaskIds := Repeat(1, |perTokenIds|) + Repeat(0, maxLen - |perTokenIds|);
      assert perMaskIds == MaskRow(|rows[k]|, maxLen);
      tokenIds := tokenIds[k := perTokenIds + Repeat(pad, maxLen - |perTokenIds|)];
      var perTypeIds := Repeat(0, maxLen);
      maskIds := maskIds + [perMaskIds];
      typeIds := typeIds + [perTypeIds];
    }
  }

  /** get_info: encode every example, then pad every row to the longest one. */
  method GetInfo(batch: seq<Example>, encode: Encoder, cls: int, sep: int, pad: int) returns (r: Result<Info>)
    ensures r == Inputs(batch, encode, cls, sep, pad)
  {
    var tokenIds, tokenLoc := EncodeBatch(batch, encode, cls, sep);
    if tokenIds == [] {
      return Err(ValueError);
    }
    var maxLen := MaxLen(tokenIds);
    var paddedIds, typeIds, maskIds := PadRows(tokenIds, maxLen, pad);
    r := Ok(Info(tokenLoc, paddedIds, typeIds, maskIds));
  }

  // ---------------------------------------------------------------------------
  // Properties

  lemma {:induction false} EncAppend(a: seq<string>, b: seq<string>, encode: Encoder)
    ensures Enc(a + b, encode) == Enc(a, encode) + Enc(b, encode)
    decreases |b|
  {
    if b == [] {
      assert a + b == a;
    } else {
      assert (a + b)[..|a + b| - 1] == a + b[..|b| - 1];
      EncAppend(a, b[..|b| - 1], encode);
    }
  }

  /** The encoding of the words is the encoding of those before word i, then word i's
      own, then the rest. */
  lemma {:induction false} EncSplit(words: seq<string>, encode: Encoder, i: nat)
    requires i < |words|
    ensures Enc(words, encode) == Enc(words[..i], encode) + encode(words[i]) + Enc(words[i + 1..], encode)
  {
    assert words == words[..i] + [words[i]] + words[i + 1..];
    EncAppend(words[..i] + [words[i]], words[i + 1..], encode);
    EncAppend(words[..i], [words[i]], encode);
    assert [words[i]][..0] == [];
  }

  /** Location i is the length of the encodings of the words before word i. */
  lemma {:induction false} LocsAt(words: seq<string>, encode: Encoder, base: nat)
    ensures |Locs(words, encode, base)| == |words|
    ensures forall i :: 0 <= i < |words| ==> Locs(words, encode, base)[i] == base + |Enc(words[..i], encode)|
  {
    if words != [] {
      var init := words[..|words| - 1];
      LocsAt(init, encode, base);
      forall i | 0 <= i < |words|
        ensures Locs(words, encode, base)[i] == base + |Enc(words[..i], encode)|
      {
        if i < |init| {
          assert init[..i] == words[..i];
        }
      }
    }
  }

  /** The locations of a word list rise with the word index. */
  lemma {:induction false} LocsMonotone(words: seq<string>, encode: Encoder, base: nat)
    ensures |Locs(words, encode, base)| == |words|
    ensures forall i, j :: 0 <= i <= j < |words| ==> Locs(words, encode, base)[i] <= Locs(words, encode, base)[j]
  {
    LocsAt(words, encode, base);
    forall i, j | 0 <= i <= j < |words|
      ensures Locs(words, encode, base)[i] <= Locs(words, encode, base)[j]
    {
      assert words[..j] == words[..i] + words[i..j];
      EncAppend(words[..i], words[i..j], encode);
    }
  }

  /** The ids e sit in row at position l. */
  predicate EncodedAt(row: seq<int>, l: nat, e: seq<int>) {
    l + |e| <= |row| && row[l..l + |e|] == e
  }

  /** Each location, less the base, is where its word's encoding sits among the laid-out
      encodings. */
  lemma {:induction false} LocsFacts(words: seq<string>, encode: Encoder, base: nat)
    ensures |Locs(words, encode, base)| == |words|
    ensures forall i :: 0 <= i < |words| ==>
      base <= Locs(words, encode, base)[i] &&
      EncodedAt(Enc(words, encode), Locs(words, encode, base)[i] - base, encode(words[i]))
  {
    LocsAt(words, encode, base);
    forall i | 0 <= i < |words|
      ensures EncodedAt(Enc(words, encode), |Enc(words[..i], encode)|, encode(words[i]))
    {
      EncAt(words, encode, i);
    }
  }

  /** Word i's encoding sits right after the encodings of the words before it. */
  lemma EncAt(words: seq<string>, encode: Encoder, i: nat)
    requires i < |words|
    ensures EncodedAt(Enc(words, encode), |Enc(words[..i], encode)|, encode(words[i]))
  {
    EncSplit(words, encode, i);
    var pre, e, post := Enc(words[..i], encode), encode(words[i]), Enc(words[i + 1..], encode);
    assert e[0..|e|] == e;
    MiddleSlice(pre, e, post, 0, e);
  }

  /** Ids that sit in the middle part of a concatenation sit in the whole, shifted by the
      first part. */
  lemma MiddleSlice(pre: seq<int>, mid: seq<int>, post: seq<int>, a: nat, e: seq<int>)
    requires EncodedAt(mid, a, e)
    ensures EncodedAt(pre + mid + post, |pre| + a, e)
  {
    var s := pre + mid + post;
    assert forall k :: |pre| + a <= k < |pre| + a + |e| ==> s[k] == mid[k - |pre|];
  }

  /** Every location lies between the base and the end of the laid-out encodings. */
  lemma {:induction false} LocsBounds(words: seq<string>, encode: Encoder, base: nat)
    ensures forall i :: 0 <= i < |words| ==> base <= Locs(words, encode, base)[i] <= base + |Enc(words, encode)|
  {
    LocsFacts(words, encode, base);
  }

  /** Laid out between `pre` and `post`, word i's encoding sits at its location, which
      is no earlier than the first and no later than the end of the encodings. */
  lemma {:induction false} LocsInRow(words: seq<string>, encode: Encoder, pre: seq<int>, post: seq<int>)
    ensures forall i :: 0 <= i < |words| ==>
      var l := Locs(words, encode, |pre|)[i];
      |pre| <= l <= |pre| + |Enc(words, encode)| && EncodedAt(pre + Enc(words, encode) + post, l, encode(words[i]))
  {
    LocsFacts(words, encode, |pre|);
    var ew := Enc(words, encode);
    forall i | 0 <= i < |words|
      ensures var l := Locs(words, encode, |pre|)[i];
        |pre| <= l <= |pre| + |ew| && EncodedAt(pre + ew + post, l, encode(words[i]))
    {
      var l := Locs(words, encode, |pre|)[i];
      MiddleSlice(pre, ew, post, l - |pre|, encode(words[i]));
    }
  }

  /** An example's token locations: one per premise word and then one per hypothesis word,
      non-decreasing, and each inside the unpadded row. */
  lemma {:induction false} RowLocsOrdered(x: Example, encode: Encoder, cls: int, sep: int)
    ensures var p, h, locs, row := SplitWs(x.premise), SplitWs(x.hypothesis), RowLocs(x, encode), Row(x, encode, cls, sep);
      && |locs| == |p| + |h|
      && (forall i, j :: 0 <= i <= j < |locs| ==> locs[i] <= locs[j])
      && (forall i :: 0 <= i < |locs| ==> locs[i] < |row|)
  {
    var p, h := SplitWs(x.premise), SplitWs(x.hypothesis);
    var ep, eh := Enc(p, encode), Enc(h, encode);
    var lp, lh := Locs(p, encode, 1), Locs(h, encode, |ep| + 2);
    var locs := RowLocs(x, encode);
    LocsMonotone(p, encode, 1);
    LocsMonotone(h, encode, |ep| + 2);
    LocsBounds(p, encode, 1);
    LocsBounds(h, encode, |ep| + 2);
    assert locs == lp + lh;
  }

  /** Each premise word's token location is the position in the unpadded row where that
      word's encoding starts. */
  lemma {:induction false} PremiseLocsStart(x: Example, encode: Encoder, cls: int, sep: int)
    ensures var p, locs, row := SplitWs(x.premise), RowLocs(x, encode), Row(x, encode, cls, sep);
      forall i :: 0 <= i < |p| ==> i < |locs| && EncodedAt(row, locs[i], encode(p[i]))
  {
    var p, h := SplitWs(x.premise), SplitWs(x.hypothesis);
    var ep, eh := Enc(p, encode), Enc(h, encode);
    var lp := Locs(p, encode, 1);
    var locs, row := RowLocs(x, encode), Row(x, encode, cls, sep);
    var post := [sep] + eh + [sep];
    LocsInRow(p, encode, [cls], post);
    assert row == [cls] + ep + post;
    assert locs == lp + Locs(h, encode, |ep| + 2);
    forall i | 0 <= i < |p|
      ensures i < |locs| && EncodedAt(row, locs[i], encode(p[i]))
    {
      assert locs[i] == lp[i];
    }
  }

  /** Each hypothesis word's token location, which follows those of all premise words, is
      the position in the unpadded row where that word's encoding starts. */
  lemma {:induction false} HypothesisLocsStart(x: Example, encode: Encoder, cls: int, sep: int)
    ensures var p, h, locs, row := SplitWs(x.premise), SplitWs(x.hypothesis), RowLocs(x, encode), Row(x, encode, cls, sep);
      forall i :: 0 <= i < |h| ==> |p| + i < |locs| && EncodedAt(row, locs[|p| + i], encode(h[i]))
  {
    var p, h := SplitWs(x.premise), SplitWs(x.hypothesis);
    var ep, eh := Enc(p, encode), Enc(h, encode);
    var pre := [cls] + ep + [sep];
    assert |pre| == |ep| + 2;
    var lp, lh := Locs(p, encode, 1), Locs(h, encode, |pre|);
    var locs, row := RowLocs(x, encode), Row(x, encode, cls, sep);
    LocsInRow(h, encode, pre, [sep]);
    assert row == pre + eh + [sep];
    assert locs == lp + lh;
    forall i | 0 <= i < |h|
      ensures |p| + i < |locs| && EncodedAt(row, locs[|p| + i], encode(h[i]))
    {
      assert locs[|p| + i] == lh[i];
    }
  }

  /** A padded row keeps the row as its prefix and has n ids, the rest being pad. */
  lemma PadRowFacts(row: seq<int>, n: nat, pad: int)
    requires |row| <= n
    ensures |PadRow(row, n, pad)| == n && PadRow(row, n, pad)[..|row|] == row
    ensures forall i :: |row| <= i < n ==> PadRow(row, n, pad)[i] == pad
  {
    RepeatAt(pad, n - |row|);
  }

  /** A mask is len ones followed by n - len zeros. */
  lemma MaskRowFacts(len: nat, n: nat)
    requires len <= n
    ensures |MaskRow(len, n)| == n
    ensures forall i :: 0 <= i < n ==> MaskRow(len, n)[i] == if i < len then 1 else 0
  {
    RepeatAt(1, len);
    RepeatAt(0, n - len);
  }

  /** After padding every row has the longest row's length, begins with the unpadded row
      and is filled with pad; the mask has a 1 for each unpadded id and a 0 for each pad;
      the type ids are zeros; and an empty batch is the only error. */
  lemma {:induction false} InputsShape(batch: seq<Example>, encode: Encoder, cls: int, sep: int, pad: int)
    ensures Inputs(batch, encode, cls, sep, pad).Err? <==> batch == []
    ensures Inputs(batch, encode, cls, sep, pad).Err? ==> Inputs(batch, encode, cls, sep, pad).error == ValueError
    ensures Inputs(batch, encode, cls, sep, pad).Ok? ==>
      var info, rows := Inputs(batch, encode, cls, sep, pad).value, Rows(batch, encode, cls, sep);
      var n := MaxLen(rows);
      && |info.tokenLoc| == |info.tokenIds| == |info.typeIds| == |info.maskIds| == |batch|
      && (forall k :: 0 <= k < |batch| ==> |rows[k]| <= n)
      && (exists k :: 0 <= k < |batch| && |rows[k]| == n)
      && (forall k :: 0 <= k < |batch| ==>
            && |info.tokenIds[k]| == n && info.tokenIds[k][..|rows[k]|] == rows[k]
            && (forall i :: |rows[k]| <= i < n ==> info.tokenIds[k][i] == pad)
            && |info.maskIds[k]| == n
            && (forall i :: 0 <= i < n ==> info.maskIds[k][i] == if i < |rows[k]| then 1 else 0)
            && |info.typeIds[k]| == n
            && (forall i :: 0 <= i < n ==> info.typeIds[k][i] == 0))
  {
    if batch != [] {
      var rows := Rows(batch, encode, cls, sep);
      PadAllShape(rows, MaxLen(rows), pad);
    }
  }

  /** Rows no longer than n, padded to n: each keeps its ids as prefix and is filled with
      pad, its mask has a 1 per id and a 0 per pad, and its type ids are zeros. */
  lemma PadAllShape(rows: seq<seq<int>>, n: nat, pad: int)
    requires forall k :: 0 <= k < |rows| ==> |rows[k]| <= n
    ensures var ids, types, masks := PadAll(rows, n, pad), TypeAll(rows, n), MaskAll(rows, n);
      forall k :: 0 <= k < |rows| ==>
        && |ids[k]| == n && ids[k][..|rows[k]|] == rows[k]
        && (forall i :: |rows[k]| <= i < n ==> ids[k][i] == pad)
        && |masks[k]| == n
        && (forall i :: 0 <= i < n ==> masks[k][i] == if i < |rows[k]| then 1 else 0)
        && |types[k]| == n
        && (forall i :: 0 <= i < n ==> types[k][i] == 0)
  {
    RepeatAt(0, n);
    forall k | 0 <= k < |rows|
      ensures |PadRow(rows[k], n, pad)| == n && PadRow(rows[k], n, pad)[..|rows[k]|] == rows[k]
      ensures forall i :: |rows[k]| <= i < n ==> PadRow(rows[k], n, pad)[i] == pad
      ensures |MaskRow(|rows[k]|, n)| == n
      ensures forall i :: 0 <= i < n ==> MaskRow(|rows[k]|, n)[i] == if i < |rows[k]| then 1 else 0
    {
      PadRowFacts(rows[k], n, pad);
      MaskRowFacts(|rows[k]|, n);
    }
  }
}
