/** The Universal Dependencies dataset of the POS/dependency tagger
    (data_augment/model/dataset.py): a CoNLL-U reader that groups token lines
    into sentences, the label vocabularies, and the alignment of word-level
    UPOS, DEPREL and HEAD labels to subtokens. The tokenizer is abstract: it
    is the function that gives each subtoken position its word index, or None
    for special and padding positions. */
module Conllu {
  import opened Common
  import opened Strings
  import opened LabelMaps

  /** The ten columns ID FORM LEMMA UPOS XPOS FEATS HEAD DEPREL DEPS MISC of a token line. */
  type Fields = f: seq<string> | |f| == 10 witness ["", "", "", "", "", "", "", "", "", ""]

  const ID := 0
  const FORM := 1
  const UPOS := 3
  const HEAD := 6
  const DEPREL := 7

  /** The label a subtoken gets when the loss must ignore it. */
  const IGNORE_INDEX := -100

  type Sentence = seq<Fields>

  // ---------------------------------------------------------------------------
  // Reading lines

  datatype LineKind =
    | Blank             // ends the current sentence
    | Skipped           // a comment, a short line, a multiword range or an empty node
    | Token(fields: Fields)

  /** A word index, not a multiword range ("1-2") or an empty node ("1.1"). */
  predicate PlainId(id: string) {
    '-' !in id && '.' !in id
  }

  /** The kind of one line: blank when it strips to nothing; skipped when it is a comment
      or splits on tabs into fewer than ten fields; otherwise its first ten fields, a
      token line when their ID is a plain word index and skipped when it is not. */
  function Classify(line: string): (k: LineKind)
    ensures k.Blank? <==> AllSpace(line)
    ensures !AllSpace(line) && Strip(line)[0] == '#' ==> k.Skipped?
    ensures !AllSpace(line) && |SplitOn(Strip(line), '\t')| < 10 ==> k.Skipped?
    ensures k.Token? <==>
      && !AllSpace(line) && Strip(line)[0] != '#'
      && |SplitOn(Strip(line), '\t')| >= 10
      && PlainId(SplitOn(Strip(line), '\t')[ID])
    ensures k.Token? ==> k.fields == SplitOn(Strip(line), '\t')[..10]
  {
    var l := Strip(line);
    if l == [] then Blank
    else if l[0] == '#' then Skipped
    else
      var parts := SplitOn(l, '\t');
      if |parts| < 10 then Skipped
      else
        var fields: Fields := parts[..10];
        if '-' in fields[ID] || '.' in fields[ID] then Skipped
        else Token(fields)
  }

  /** The three kinds split the lines: a line is skipped exactly when it is not blank and
      is a comment, has fewer than ten fields or has a range or empty-node ID; a token's
      fields hold no tab. */
  lemma ClassifySpec(line: string)
    ensures var k := Classify(line);
      && (k.Skipped? <==>
            && !AllSpace(line)
            && (|| Strip(line)[0] == '#'
                || |SplitOn(Strip(line), '\t')| < 10
                || !PlainId(SplitOn(Strip(line), '\t')[ID])))
      && (k.Token? ==> PlainId(k.fields[ID]))
      && (k.Token? ==> forall j :: 0 <= j < 10 ==> '\t' !in k.fields[j])
  {
    var k := Classify(line);
    if k.Token? {
      var parts := SplitOn(Strip(line), '\t');
      forall j | 0 <= j < 10
        ensures '\t' !in k.fields[j]
      {
        assert k.fields[j] == parts[j];
      }
    }
  }

  /** The reader's state: the finished sentences and the token lines of the current one. */
  datatype Reader = Reader(done: seq<Sentence>, cur: Sentence)

  /** The reader's response to one classified line. */
  function Step(r: Reader, k: LineKind): Reader {
    match k
    case Blank => if r.cur != [] then Reader(r.done + [r.cur], []) else r
    case Skipped => r
    case Token(f) => Reader(r.done, r.cur + [f])
  }

  /** The reader's state after the given classified lines, starting from r. */
  function ScanFrom(r: Reader, ks: seq<LineKind>): Reader {
    if ks == [] then r else Step(ScanFrom(r, ks[..|ks| - 1]), ks[|ks| - 1])
  }

  /** The classification of every line. */
  function Kinds(lines: seq<string>): seq<LineKind> {
    if lines == [] then [] else Kinds(lines[..|lines| - 1]) + [Classify(lines[|lines| - 1])]
  }

  function Scan(lines: seq<string>): Reader {
    ScanFrom(Reader([], []), Kinds(lines))
  }

  /** End of file: the current sentence is kept when it has tokens. */
  function Close(r: Reader): seq<Sentence> {
    if r.cur != [] then r.done + [r.cur] else r.done
  }

  /** The sentences of a CoNLL-U file, each as the fields of its token lines. */
  function Sentences(lines: seq<string>): (ss: seq<Sentence>)
    ensures forall i :: 0 <= i < |ss| ==> ss[i] != []
    ensures Flatten(ss) == TokenRows(lines)
  {
    CloseInvariant(Kinds(lines));
    Close(Scan(lines))
  }

  /** The fields of every token line among the classified lines, in order. */
  function TokenRowsOf(ks: seq<LineKind>): seq<Fields> {
    if ks == [] then []
    else TokenRowsOf(ks[..|ks| - 1]) + (if ks[|ks| - 1].Token? then [ks[|ks| - 1].fields] else [])
  }

  /** The fields of every token line of the file, in file order. */
  function TokenRows(lines: seq<string>): seq<Fields> {
    TokenRowsOf(Kinds(lines))
  }

  function Flatten(ss: seq<Sentence>): seq<Fields> {
    if ss == [] then [] else Flatten(ss[..|ss| - 1]) + ss[|ss| - 1]
  }

  lemma {:induction false} FlattenAppend(ss: seq<Sentence>, s: Sentence)
    ensures Flatten(ss + [s]) == Flatten(ss) + s
  {
    assert (ss + [s])[..|ss|] == ss;
  }

  lemma {:induction false} KindsConcat(a: seq<string>, b: seq<string>)
    ensures Kinds(a + b) == Kinds(a) + Kinds(b)
    decreases |b|
  {
    if b == [] {
      assert a + b == a;
    } else {
      var init, last := b[..|b| - 1], b[|b| - 1];
      assert (a + b)[..|a + b| - 1] == a + init;
      assert (a + b)[|a + b| - 1] == last;
      KindsConcat(a, init);
    }
  }

  lemma {:induction false} KindsAround(a: seq<string>, line: string, b: seq<string>)
    ensures Kinds(a + [line] + b) == Kinds(a) + [Classify(line)] + Kinds(b)
  {
    KindsConcat(a + [line], b);
    KindsConcat(a, [line]);
    assert Kinds([line]) == [Classify(line)] by {
      assert [line][..0] == [];
    }
  }

  lemma {:induction false} ScanFromAppend(r: Reader, a: seq<LineKind>, b: seq<LineKind>)
    ensures ScanFrom(r, a + b) == ScanFrom(ScanFrom(r, a), b)
    decreases |b|
  {
    if b == [] {
      assert a + b == a;
    } else {
      assert (a + b)[..|a + b| - 1] == a + b[..|b| - 1];
      ScanFromAppend(r, a, b[..|b| - 1]);
    }
  }

  /** Scanning from a state with no open sentence only adds to the finished sentences. */
  lemma {:induction false} ScanFromShift(d: seq<Sentence>, b: seq<LineKind>)
    ensures ScanFrom(Reader(d, []), b) == Reader(d + ScanFrom(Reader([], []), b).done, ScanFrom(Reader([], []), b).cur)
    decreases |b|
  {
    if b != [] {
      ScanFromShift(d, b[..|b| - 1]);
    }
  }

  /** A blank line closes the sentence: what precedes it and what follows it are read
      independently. */
  lemma {:induction false} BlankLineSeparates(a: seq<string>, blank: string, b: seq<string>)
    requires AllSpace(blank)
    ensures Sentences(a + [blank] + b) == Sentences(a) + Sentences(b)
  {
    KindsAround(a, blank, b);
    BlankKindSeparates(Kinds(a), Kinds(b));
  }

  lemma {:induction false} BlankKindSeparates(ka: seq<LineKind>, kb: seq<LineKind>)
    ensures Close(ScanFrom(Reader([], []), ka + [Blank] + kb))
         == Close(ScanFrom(Reader([], []), ka)) + Close(ScanFrom(Reader([], []), kb))
  {
    var init := Reader([], []);
    ScanFromAppend(init, ka + [Blank], kb);
    assert (ka + [Blank])[..|ka|] == ka;
    var ra := ScanFrom(init, ka);
    var sa := Close(ra);
    assert ScanFrom(init, ka + [Blank]) == Reader(sa, []);
    ScanFromShift(sa, kb);
    var rb := ScanFrom(init, kb);
    if rb.cur != [] {
      assert (sa + rb.done) + [rb.cur] == sa + (rb.done + [rb.cur]);
    }
  }

  /** The last sentence is emitted whether or not the file ends with a blank line. */
  lemma {:induction false} TrailingBlankOptional(lines: seq<string>, blank: string)
    requires AllSpace(blank)
    ensures Sentences(lines + [blank]) == Sentences(lines)
  {
    BlankLineSeparates(lines, blank, []);
    assert lines + [blank] + [] == lines + [blank];
  }

  /** Comments, lines with fewer than ten columns, multiword ranges and empty nodes are
      dropped without closing the sentence. */
  lemma {:induction false} SkippedLineIgnored(a: seq<string>, line: string, b: seq<string>)
    requires Classify(line).Skipped?
    ensures Sentences(a + [line] + b) == Sentences(a + b)
  {
    KindsAround(a, line, b);
    KindsConcat(a, b);
    SkippedKindIgnored(Kinds(a), Kinds(b));
  }

  lemma {:induction false} SkippedKindIgnored(ka: seq<LineKind>, kb: seq<LineKind>)
    ensures ScanFrom(Reader([], []), ka + [Skipped] + kb) == ScanFrom(Reader([], []), ka + kb)
  {
    var init := Reader([], []);
    ScanFromAppend(init, ka + [Skipped], kb);
    ScanFromAppend(init, ka, kb);
    assert (ka + [Skipped])[..|ka|] == ka;
  }

  /** Every emitted sentence has at least one token, and no token line is lost or invented:
      the sentences, concatenated, are exactly the token lines in file order. */
  lemma {:induction false} CloseInvariant(ks: seq<LineKind>)
    ensures var ss := Close(ScanFrom(Reader([], []), ks));
      && (forall i :: 0 <= i < |ss| ==> ss[i] != [])
      && Flatten(ss) == TokenRowsOf(ks)
  {
    var r := ScanFrom(Reader([], []), ks);
    ScanInvariant(ks);
    if r.cur != [] {
      FlattenAppend(r.done, r.cur);
    } else {
      assert Flatten(r.done) + r.cur == Flatten(r.done);
    }
  }

  /** Reading from the start, the finished sentences are nonempty and, followed by the
      open one, hold exactly the token lines read so far. */
  lemma {:induction false} ScanInvariant(ks: seq<LineKind>)
    ensures var r := ScanFrom(Reader([], []), ks);
      && (forall i :: 0 <= i < |r.done| ==> r.done[i] != [])
      && Flatten(r.done) + r.cur == TokenRowsOf(ks)
  {
    var init := Reader([], []);
    if ks != [] {
      var prev := ks[..|ks| - 1];
      ScanInvariant(prev);
      var r := ScanFrom(init, prev);
      var k := ks[|ks| - 1];
      assert ScanFrom(init, ks) == Step(r, k);
      match k
      case Blank =>
        assert TokenRowsOf(ks) == TokenRowsOf(prev);
        if r.cur != [] {
          FlattenAppend(r.done, r.cur);
        }
      case Skipped =>
        assert TokenRowsOf(ks) == TokenRowsOf(prev);
      case Token(f) =>
        assert TokenRowsOf(ks) == TokenRowsOf(prev) + [f];
        assert Flatten(r.done) + (r.cur + [f]) == (Flatten(r.done) + r.cur) + [f];
    }
  }

  // ---------------------------------------------------------------------------
  // Columns

  /** Column c of every token line of a sentence. */
  function Column(s: Sentence, c: nat): (col: seq<string>)
    requires c < 10
    ensures |col| == |s|
  {
    if s == [] then [] else Column(s[..|s| - 1], c) + [s[|s| - 1][c]]
  }

  /** Column c of every sentence. */
  function Columns(ss: seq<Sentence>, c: nat): (cols: seq<seq<string>>)
    requires c < 10
    ensures |cols| == |ss|
  {
    if ss == [] then [] else Columns(ss[..|ss| - 1], c) + [Column(ss[|ss| - 1], c)]
  }

  lemma {:induction false} ColumnsPush(ss: seq<Sentence>, s: Sentence)
    ensures forall c :: 0 <= c < 10 ==> Columns(ss + [s], c) == Columns(ss, c) + [Column(s, c)]
  {
    assert (ss + [s])[..|ss|] == ss;
  }

  lemma {:induction false} ColumnPush(s: Sentence, f: Fields)
    ensures forall c :: 0 <= c < 10 ==> Column(s + [f], c) == Column(s, c) + [f[c]]
  {
    assert (s + [f])[..|s|] == s;
  }

  /** Four per-sentence lists that run in parallel: as many entries, and sentence by
      sentence as many labels as words. */
  predicate Parallel(forms: seq<seq<string>>, upos: seq<seq<string>>, deprels: seq<seq<string>>, heads: seq<seq<string>>) {
    && |upos| == |forms| && |deprels| == |forms| && |heads| == |forms|
    && forall i :: 0 <= i < |forms| ==>
         |upos[i]| == |forms[i]| && |deprels[i]| == |forms[i]| && |heads[i]| == |forms[i]|
  }

  /** All columns of a sentence list have the shape of the list. */
  lemma {:induction false} ColumnsParallel(ss: seq<Sentence>)
    ensures Parallel(Columns(ss, FORM), Columns(ss, UPOS), Columns(ss, DEPREL), Columns(ss, HEAD))
  {
    forall i | 0 <= i < |ss|
      ensures && |Columns(ss, UPOS)[i]| == |Columns(ss, FORM)[i]|
              && |Columns(ss, DEPREL)[i]| == |Columns(ss, FORM)[i]|
              && |Columns(ss, HEAD)[i]| == |Columns(ss, FORM)[i]|
    {
      ColumnsAt(ss, FORM, i);
      ColumnsAt(ss, UPOS, i);
      ColumnsAt(ss, DEPREL, i);
      ColumnsAt(ss, HEAD, i);
    }
  }

  /** Column c of sentence i is the i-th entry of the columns. */
  lemma {:induction false} ColumnsAt(ss: seq<Sentence>, c: nat, i: nat)
    requires c < 10 && i < |ss|
    ensures Columns(ss, c)[i] == Column(ss[i], c)
  {
    if i < |ss| - 1 {
      ColumnsAt(ss[..|ss| - 1], c, i);
    }
  }

  /** Entry j of column c is field c of token line j. */
  lemma {:induction false} ColumnAt(s: Sentence, c: nat, j: nat)
    requires c < 10 && j < |s|
    ensures Column(s, c)[j] == s[j][c]
  {
    if j < |s| - 1 {
      ColumnAt(s[..|s| - 1], c, j);
    }
  }

  /** The distinct values of column c over the given token lines. */
  function ColumnSet(rows: seq<Fields>, c: nat): set<string>
    requires c < 10
  {
    set f | f in rows :: f[c]
  }

  lemma {:induction false} ColumnSetPush(rows: seq<Fields>, f: Fields)
    ensures forall c :: 0 <= c < 10 ==> ColumnSet(rows + [f], c) == ColumnSet(rows, c) + {f[c]}
  {
  }

  /** One more line read: the reader steps on its classification. */
  lemma {:induction false} ScanSnoc(lines: seq<string>, i: nat)
    requires i < |lines|
    ensures Scan(lines[..i + 1]) == Step(Scan(lines[..i]), Classify(lines[i]))
    ensures TokenRows(lines[..i + 1]) == TokenRows(lines[..i])
      + (if Classify(lines[i]).Token? then [Classify(lines[i]).fields] else [])
  {
    var p := lines[..i + 1];
    assert p[..|p| - 1] == lines[..i];
    assert p[|p| - 1] == lines[i];
    var ks := Kinds(p);
    assert ks == Kinds(lines[..i]) + [Classify(lines[i])];
    assert ks[..|ks| - 1] == Kinds(lines[..i]);
  }

  // ---------------------------------------------------------------------------
  // Subtoken alignment

  /** The UPOS, DEPREL and HEAD columns of one sentence. */
  datatype SentenceTags = SentenceTags(pos: seq<string>, dep: seq<string>, heads: seq<string>)

  /** The label vocabularies used for the alignment. */
  datatype Vocab = Vocab(pos: map<string, int>, dep: map<string, int>)

  /** The three label sequences of one encoded sentence, one entry per subtoken position. */
  datatype Aligned = Aligned(pos: seq<int>, dep: seq<int>, head: seq<int>)

  datatype Labels = Labels(pos: int, dep: int, head: int)

  const IGNORED := Labels(IGNORE_INDEX, IGNORE_INDEX, IGNORE_INDEX)

  /** The labels of word w, or the exception its lookup raises: a missing word is an
      IndexError, a label absent from the vocabulary a KeyError, a HEAD that is not a
      number a ValueError. The root (HEAD 0) points at itself; other heads are shifted
      from 1-based to 0-based. */
  function WordLabels(w: nat, tags: SentenceTags, vocab: Vocab): (r: Result<Labels>)
    ensures r.Ok? <==>
      && w < |tags.pos| && w < |tags.dep| && w < |tags.heads|
      && tags.pos[w] in vocab.pos && tags.dep[w] in vocab.dep
      && ParseInt(tags.heads[w]).Some?
    ensures r.Ok? ==> r.value.pos in vocab.pos.Values && r.value.dep in vocab.dep.Values
    ensures r.Ok? ==>
      || ParseInt(tags.heads[w]) == Some(r.value.head + 1)
      || (ParseInt(tags.heads[w]) == Some(0) && r.value.head == w)
    ensures r.Err? ==> r.error in {IndexError, KeyError, ValueError}
    ensures r.Err? && r.error == IndexError ==> w >= |tags.pos| || w >= |tags.dep| || w >= |tags.heads|
  {
    if w >= |tags.pos| then Err(IndexError)
    else if tags.pos[w] !in vocab.pos then Err(KeyError)
    else if w >= |tags.dep| then Err(IndexError)
    else if tags.dep[w] !in vocab.dep then Err(KeyError)
    else if w >= |tags.heads| then Err(IndexError)
    else match ParseInt(tags.heads[w])
      case None => Err(ValueError)
      case Some(h) => Ok(Labels(vocab.pos[tags.pos[w]], vocab.dep[tags.dep[w]], if h == 0 then w else h - 1))
  }

  /** Position i is the first subtoken of its word: it has a word index that differs
      from the previous position's. */
  predicate StartsWord(wordIds: seq<Option<nat>>, i: nat)
    requires i < |wordIds|
  {
    wordIds[i].Some? && (i == 0 || wordIds[i - 1] != wordIds[i])
  }

  function PositionLabels(wordIds: seq<Option<nat>>, i: nat, tags: SentenceTags, vocab: Vocab): Result<Labels>
    requires i < |wordIds|
  {
    if StartsWord(wordIds, i) then WordLabels(wordIds[i].value, tags, vocab) else Ok(IGNORED)
  }

  function Push(a: Aligned, l: Labels): Aligned {
    Aligned(a.pos + [l.pos], a.dep + [l.dep], a.head + [l.head])
  }

  /** The labels of the first n positions, or the first exception among them. */
  function AlignPrefix(wordIds: seq<Option<nat>>, n: nat, tags: SentenceTags, vocab: Vocab): (r: Result<Aligned>)
    requires n <= |wordIds|
    ensures r.Ok? ==> |r.value.pos| == n && |r.value.dep| == n && |r.value.head| == n
  {
    if n == 0 then Ok(Aligned([], [], []))
    else match AlignPrefix(wordIds, n - 1, tags, vocab)
      case Err(e) => Err(e)
      case Ok(a) =>
        match PositionLabels(wordIds, n - 1, tags, vocab)
        case Err(e) => Err(e)
        case Ok(l) => Ok(Push(a, l))
  }

  function Align(wordIds: seq<Option<nat>>, tags: SentenceTags, vocab: Vocab): (r: Result<Aligned>)
    ensures r.Ok? ==> |r.value.pos| == |wordIds| && |r.value.dep| == |wordIds| && |r.value.head| == |wordIds|
    ensures r.Ok? <==> forall i :: 0 <= i < |wordIds| ==> PositionLabels(wordIds, i, tags, vocab).Ok?
  {
    AlignPointwise(wordIds, |wordIds|, tags, vocab);
    AlignPrefix(wordIds, |wordIds|, tags, vocab)
  }

  /** The alignment loop of dataset.py for one sentence. */
  method AlignLabels(wordIds: seq<Option<nat>>, tags: SentenceTags, vocab: Vocab) returns (r: Result<Aligned>)
    ensures r == Align(wordIds, tags, vocab)
  {
    var posIds: seq<int> := [];
    var depIds: seq<int> := [];
    var headIds: seq<int> := [];
    var previous: Option<nat> := None;
    for i := 0 to |wordIds|
      invariant AlignPrefix(wordIds, i, tags, vocab) == Ok(Aligned(posIds, depIds, headIds))
      invariant previous == if i == 0 then None else wordIds[i - 1]
    {
      var wordIdx := wordIds[i];
      if wordIdx.None? {
        posIds, depIds, headIds := posIds + [IGNORE_INDEX], depIds + [IGNORE_INDEX], headIds + [IGNORE_INDEX];
      } else if wordIdx != previous {
        var w := wordIdx.value;
        if w >= |tags.pos| || tags.pos[w] !in vocab.pos || w >= |tags.dep| || tags.dep[w] !in vocab.dep
           || w >= |tags.heads| || ParseInt(tags.heads[w]).None? {
          r := Err(WordLabels(w, tags, vocab).error);
          AlignErrorPersists(wordIds, i + 1, tags, vocab);
          return;
        }
        var h := ParseInt(tags.heads[w]).value;
        posIds := posIds + [vocab.pos[tags.pos[w]]];
        depIds := depIds + [vocab.dep[tags.dep[w]]];
        headIds := headIds + [if h == 0 then w else h - 1];
      } else {
        posIds, depIds, headIds := posIds + [IGNORE_INDEX], depIds + [IGNORE_INDEX], headIds + [IGNORE_INDEX];
      }
      previous := wordIdx;
    }
    r := Ok(Aligned(posIds, depIds, headIds));
  }

  /** Once a position raises, the whole alignment raises the same exception. */
  lemma {:induction false} AlignErrorPersists(wordIds: seq<Option<nat>>, n: nat, tags: SentenceTags, vocab: Vocab)
    requires n <= |wordIds| && AlignPrefix(wordIds, n, tags, vocab).Err?
    ensures Align(wordIds, tags, vocab) == AlignPrefix(wordIds, n, tags, vocab)
    decreases |wordIds| - n
  {
    if n < |wordIds| {
      AlignErrorPersists(wordIds, n + 1, tags, vocab);
    }
  }

  /** What the alignment means, position by position: it succeeds exactly when every
      word-initial position has its labels; then each of the three sequences is as long as
      the word ids, a position without a word or continuing the previous position's word
      is ignored, and a word-initial position carries its word's labels. */
  lemma {:induction false} AlignPointwise(wordIds: seq<Option<nat>>, n: nat, tags: SentenceTags, vocab: Vocab)
    requires n <= |wordIds|
    ensures AlignPrefix(wordIds, n, tags, vocab).Ok? <==> forall i :: 0 <= i < n ==> PositionLabels(wordIds, i, tags, vocab).Ok?
    ensures AlignPrefix(wordIds, n, tags, vocab).Ok? ==>
      var a := AlignPrefix(wordIds, n, tags, vocab).value;
      forall i :: 0 <= i < n ==> PositionLabels(wordIds, i, tags, vocab) == Ok(Labels(a.pos[i], a.dep[i], a.head[i]))
  {
    if n > 0 {
      AlignPointwise(wordIds, n - 1, tags, vocab);
    }
  }

  /** When the alignment raises, the exception is that of the first word-initial position
      whose labels cannot be looked up. */
  lemma {:induction false} AlignFirstError(wordIds: seq<Option<nat>>, n: nat, tags: SentenceTags, vocab: Vocab)
    requires n <= |wordIds| && AlignPrefix(wordIds, n, tags, vocab).Err?
    ensures exists i :: (0 <= i < n && StartsWord(wordIds, i)
      && WordLabels(wordIds[i].value, tags, vocab) == Err(AlignPrefix(wordIds, n, tags, vocab).error)
      && forall j :: 0 <= j < i ==> PositionLabels(wordIds, j, tags, vocab).Ok?)
  {
    if AlignPrefix(wordIds, n - 1, tags, vocab).Err? {
      AlignFirstError(wordIds, n - 1, tags, vocab);
    } else {
      AlignPointwise(wordIds, n - 1, tags, vocab);
    }
  }

  /** In a sentence of n words whose HEAD values are all between 0 and n, every head
      label is -100 or a word index 0 .. n-1. */
  lemma {:induction false} HeadLabelsInRange(wordIds: seq<Option<nat>>, tags: SentenceTags, vocab: Vocab)
    requires Align(wordIds, tags, vocab).Ok?
    requires forall w :: 0 <= w < |tags.heads| ==>
               ParseInt(tags.heads[w]).Some? && 0 <= ParseInt(tags.heads[w]).value <= |tags.heads|
    ensures forall i :: 0 <= i < |wordIds| ==>
      var h := Align(wordIds, tags, vocab).value.head[i];
      h == IGNORE_INDEX || 0 <= h < |tags.heads|
  {
    AlignPointwise(wordIds, |wordIds|, tags, vocab);
  }

  /** With a vocabulary whose ids are never -100 (as every built label map is), the
      positions that carry a real UPOS label are exactly the word-initial ones. */
  lemma {:induction false} LabelledIffStartsWord(wordIds: seq<Option<nat>>, tags: SentenceTags, vocab: Vocab)
    requires Align(wordIds, tags, vocab).Ok?
    requires IGNORE_INDEX !in vocab.pos.Values
    ensures forall i :: 0 <= i < |wordIds| ==>
      (Align(wordIds, tags, vocab).value.pos[i] != IGNORE_INDEX <==> StartsWord(wordIds, i))
  {
    AlignPointwise(wordIds, |wordIds|, tags, vocab);
    forall i | 0 <= i < |wordIds| && StartsWord(wordIds, i)
      ensures Align(wordIds, tags, vocab).value.pos[i] != IGNORE_INDEX
    {
      var w := wordIds[i].value;
      assert PositionLabels(wordIds, i, tags, vocab) == WordLabels(w, tags, vocab);
      assert WordLabels(w, tags, vocab).Ok?;
      assert w < |tags.pos| && tags.pos[w] in vocab.pos;
      assert vocab.pos[tags.pos[w]] in vocab.pos.Values;
    }
  }

  /** Each position of a successful alignment: a word-initial position carries its word's
      UPOS and DEPREL ids and, as head, the word itself when HEAD is 0 and HEAD - 1
      otherwise; every other position is -100 in all three lists. */
  lemma {:induction false} AlignedLabelsAt(wordIds: seq<Option<nat>>, tags: SentenceTags, vocab: Vocab, i: nat)
    requires Align(wordIds, tags, vocab).Ok? && i < |wordIds|
    ensures var a := Align(wordIds, tags, vocab).value;
      if StartsWord(wordIds, i) then
        var w := wordIds[i].value;
        && w < |tags.pos| && tags.pos[w] in vocab.pos && a.pos[i] == vocab.pos[tags.pos[w]]
        && w < |tags.dep| && tags.dep[w] in vocab.dep && a.dep[i] == vocab.dep[tags.dep[w]]
        && w < |tags.heads| && ParseInt(tags.heads[w]).Some?
        && a.head[i] == (if ParseInt(tags.heads[w]).value == 0 then w else ParseInt(tags.heads[w]).value - 1)
      else a.pos[i] == IGNORE_INDEX && a.dep[i] == IGNORE_INDEX && a.head[i] == IGNORE_INDEX
  {
    AlignPointwise(wordIds, |wordIds|, tags, vocab);
    var a := Align(wordIds, tags, vocab).value;
    assert PositionLabels(wordIds, i, tags, vocab) == Ok(Labels(a.pos[i], a.dep[i], a.head[i]));
    if StartsWord(wordIds, i) {
      assert WordLabels(wordIds[i].value, tags, vocab) == Ok(Labels(a.pos[i], a.dep[i], a.head[i]));
    }
  }

  /** A word-initial position whose UPOS or DEPREL label is missing from the vocabulary
      makes the alignment raise; when every earlier position succeeds, it raises KeyError. */
  lemma {:induction false} MissingLabelRaises(wordIds: seq<Option<nat>>, tags: SentenceTags, vocab: Vocab, i: nat)
    requires i < |wordIds| && StartsWord(wordIds, i)
    requires var w := wordIds[i].value;
      w < |tags.pos| && w < |tags.dep| && (tags.pos[w] !in vocab.pos || tags.dep[w] !in vocab.dep)
    ensures Align(wordIds, tags, vocab).Err?
    ensures (forall j :: 0 <= j < i ==> PositionLabels(wordIds, j, tags, vocab).Ok?) ==>
      Align(wordIds, tags, vocab) == Err(KeyError)
  {
    AlignPointwise(wordIds, |wordIds|, tags, vocab);
    if forall j :: 0 <= j < i ==> PositionLabels(wordIds, j, tags, vocab).Ok? {
      AlignPointwise(wordIds, i, tags, vocab);
      assert AlignPrefix(wordIds, i + 1, tags, vocab) == Err(KeyError);
      AlignErrorPersists(wordIds, i + 1, tags, vocab);
    }
  }

  // ---------------------------------------------------------------------------
  // The dataset object

  /** The tests the line loop of the constructor makes on one line. */
  method ClassifyLine(line: string) returns (k: LineKind)
    ensures k == Classify(line)
  {
    var l := Strip(line);
    if l == [] {
      return Blank;
    }
    if l[0] == '#' {
      return Skipped;
    }
    var parts := SplitOn(l, '\t');
    if |parts| < 10 {
      return Skipped;
    }
    if |parts| > 10 {
      parts := parts[..10];
    }
    assert parts == SplitOn(l, '\t')[..10];
    if '-' in parts[0] || '.' in parts[0] {
      return Skipped;
    }
    return Token(parts);
  }

  /** The line loop of the dataset constructor: the FORM, UPOS, DEPREL and HEAD columns
      of every sentence, and the distinct UPOS and DEPREL labels seen. */
  method ReadConllu(lines: seq<string>)
    returns (sentences: seq<seq<string>>, posLabels: seq<seq<string>>, depLabels: seq<seq<string>>,
             heads: seq<seq<string>>, posSet: set<string>, depSet: set<string>)
    ensures sentences == Columns(Sentences(lines), FORM)
    ensures posLabels == Columns(Sentences(lines), UPOS)
    ensures depLabels == Columns(Sentences(lines), DEPREL)
    ensures heads == Columns(Sentences(lines), HEAD)
    ensures posSet == ColumnSet(TokenRows(lines), UPOS)
    ensures depSet == ColumnSet(TokenRows(lines), DEPREL)
  {
    sentences, posLabels, depLabels, heads := [], [], [], [];
    posSet, depSet := {}, {};
    assert TokenRows(lines[..0]) == [] by {
      assert lines[..0] == [];
      assert Kinds([]) == [];
    }
    var sentenceTokens, sentencePos, sentenceDep, sentenceHeads: seq<string> := [], [], [], [];
    ghost var done: seq<Sentence>, cur: Sentence, rows: seq<Fields> := [], [], [];
    for i := 0 to |lines|
      invariant Scan(lines[..i]) == Reader(done, cur) && TokenRows(lines[..i]) == rows
      invariant sentences == Columns(done, FORM) && posLabels == Columns(done, UPOS)
      invariant depLabels == Columns(done, DEPREL) && heads == Columns(done, HEAD)
      invariant sentenceTokens == Column(cur, FORM) && sentencePos == Column(cur, UPOS)
      invariant sentenceDep == Column(cur, DEPREL) && sentenceHeads == Column(cur, HEAD)
      invariant posSet == ColumnSet(rows, UPOS) && depSet == ColumnSet(rows, DEPREL)
    {
      ScanSnoc(lines, i);
      var kind := ClassifyLine(lines[i]);
      match kind
      case Blank =>
        if sentenceTokens != [] {
          ColumnsPush(done, cur);
          done, cur := done + [cur], [];
          sentences := sentences + [sentenceTokens];
          posLabels := posLabels + [sentencePos];
          depLabels := depLabels + [sentenceDep];
          heads := heads + [sentenceHeads];
          sentenceTokens, sentencePos, sentenceDep, sentenceHeads := [], [], [], [];
        }
      case Skipped =>
      case Token(parts) =>
        var token, pos, dep, head := parts[1], parts[3], parts[7], parts[6];
        ColumnPush(cur, parts);
        ColumnSetPush(rows, parts);
        cur, rows := cur + [parts], rows + [parts];
        sentenceTokens := sentenceTokens + [token];
        sentencePos := sentencePos + [pos];
        sentenceDep := sentenceDep + [dep];
        sentenceHeads := sentenceHeads + [head];
        posSet := posSet + {pos};
        depSet := depSet + {dep};
    }
    assert lines[..|lines|] == lines;
    if sentenceTokens != [] {
      ColumnsPush(done, cur);
      sentences := sentences + [sentenceTokens];
      posLabels := posLabels + [sentencePos];
      depLabels := depLabels + [sentenceDep];
      heads := heads + [sentenceHeads];
    }
  }

  /** The label map in use: the one supplied, or else the one built from the labels seen. */
  function Label2Id(given: Option<map<string, int>>, seen: set<string>): map<string, int> {
    if given.Some? then given.value else LabelMap(seen)
  }

  /** The label map in use and its inverse. */
  method BuildLabelMap(given: Option<map<string, int>>, seen: set<string>)
    returns (label2id: map<string, int>, id2label: map<int, string>)
    ensures label2id == Label2Id(given, seen) && id2label == Invert(label2id)
  {
    label2id := if given.Some? then given.value else LabelMap(seen);
    id2label := Invert(label2id);
  }

  /** One preprocessed sentence: its subtoken word ids and aligned labels. */
  datatype Example = Example(wordIds: seq<Option<nat>>, labels: Aligned)

  class UDParsingDataset {
    var sentences: seq<seq<string>>
    var posLabels: seq<seq<string>>
    var depLabels: seq<seq<string>>
    var heads: seq<seq<string>>
    var posLabel2id: map<string, int>
    var depLabel2id: map<string, int>
    var id2pos: map<int, string>
    var id2dep: map<int, string>
    var examples: seq<Example>

    /** The four per-sentence lists run in parallel. */
    predicate Valid()
      reads this
    {
      Parallel(sentences, posLabels, depLabels, heads)
    }

    function Tags(i: nat): SentenceTags
      reads this
      requires Valid() && i < |sentences|
    {
      SentenceTags(posLabels[i], depLabels[i], heads[i])
    }

    /** The dataset constructor up to the preprocessing step (lines 9-73 of __init__): the
        columns of every sentence and, when no map is supplied, the map of the sorted
        distinct labels seen, with its inverse. */
    constructor (lines: seq<string>, posMap: Option<map<string, int>>, depMap: Option<map<string, int>>)
      ensures Valid()
      ensures sentences == Columns(Sentences(lines), FORM)
      ensures posLabels == Columns(Sentences(lines), UPOS)
      ensures depLabels == Columns(Sentences(lines), DEPREL)
      ensures heads == Columns(Sentences(lines), HEAD)
      ensures posLabel2id == Label2Id(posMap, ColumnSet(TokenRows(lines), UPOS))
      ensures depLabel2id == Label2Id(depMap, ColumnSet(TokenRows(lines), DEPREL))
      ensures id2pos == Invert(posLabel2id) && id2dep == Invert(depLabel2id)
      ensures examples == []
    {
      var forms, upos, deprels, hds, posSet, depSet := ReadConllu(lines);
      ColumnsParallel(Sentences(lines));
      var pos2id, id2p := BuildLabelMap(posMap, posSet);
      var dep2id, id2d := BuildLabelMap(depMap, depSet);
      sentences, posLabels, depLabels, heads := forms, upos, deprels, hds;
      posLabel2id, depLabel2id := pos2id, dep2id;
      id2pos, id2dep := id2p, id2d;
      examples := [];
    }

    /** Tokenizes every sentence and aligns its labels (lines 75-114 of __init__). On
        success there is one example per sentence; otherwise the exception is that of the
        first sentence whose alignment fails. */
    method Preprocess(wordIdsOf: seq<string> -> seq<Option<nat>>) returns (err: Option<Error>)
      requires Valid()
      modifies this`examples
      ensures Valid()
      ensures err.None? <==>
        forall i :: 0 <= i < |sentences| ==> Align(wordIdsOf(sentences[i]), Tags(i), Vocab(posLabel2id, depLabel2id)).Ok?
      ensures err.None? ==> |examples| == |sentences| && forall i :: 0 <= i < |sentences| ==>
        examples[i] == Example(wordIdsOf(sentences[i]), Align(wordIdsOf(sentences[i]), Tags(i), Vocab(posLabel2id, depLabel2id)).value)
      ensures err.Some? ==> exists i :: (0 <= i < |sentences|
        && Align(wordIdsOf(sentences[i]), Tags(i), Vocab(posLabel2id, depLabel2id)) == Err(err.value)
        && forall j :: 0 <= j < i ==> Align(wordIdsOf(sentences[j]), Tags(j), Vocab(posLabel2id, depLabel2id)).Ok?)
    {
      var vocab := Vocab(posLabel2id, depLabel2id);
      examples := [];
      for i := 0 to |sentences|
        invariant |examples| == i
        invariant forall j :: 0 <= j < i ==> Align(wordIdsOf(sentences[j]), Tags(j), vocab).Ok?
        invariant forall j :: 0 <= j < i ==>
          examples[j] == Example(wordIdsOf(sentences[j]), Align(wordIdsOf(sentences[j]), Tags(j), vocab).value)
      {
        var wordIds := wordIdsOf(sentences[i]);
        var r := AlignLabels(wordIds, Tags(i), vocab);
        if r.Err? {
          return Some(r.error);
        }
        examples := examples + [Example(wordIds, r.value)];
      }
      return None;
    }
  }
}
