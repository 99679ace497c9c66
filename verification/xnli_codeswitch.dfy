/** The code-switched XNLI dataset tool (util/dataset/XNLI/all_codeswitch.py): pairing
    the lines of a code-switched text file with the labels of the original examples,
    and reading the bilingual dictionaries into lists of source -> targets. The
    non-text branch of get_set and evaluate are the same code as in all.py and are
    modelled once, in XnliData. */
module XnliCodeswitch {
  import opened Common
  import opened Strings
  import opened Multimap
  import opened XnliData

  // ---------------------------------------------------------------------------
  // get_set, text-file branch

  /** The values f gives along s, in order, skipping the Nones. */
  function Somes<T, U>(s: seq<T>, f: T -> Option<U>): (r: seq<U>)
    ensures |r| <= |s|
  {
    if s == [] then []
    else
      var y := f(s[|s| - 1]);
      Somes(s[..|s| - 1], f) + (if y.Some? then [y.value] else [])
  }

  lemma {:induction false} SomesAppend<T, U>(a: seq<T>, b: seq<T>, f: T -> Option<U>)
    ensures Somes(a + b, f) == Somes(a, f) + Somes(b, f)
    decreases |b|
  {
    if b == [] {
      assert a + b == a;
    } else {
      var init, last := b[..|b| - 1], b[|b| - 1];
      assert (a + b)[..|a + b| - 1] == a + init;
      assert (a + b)[|a + b| - 1] == last;
      SomesAppend(a, init, f);
    }
  }

  lemma SomesSingle<T, U>(x: T, f: T -> Option<U>)
    ensures Somes([x], f) == if f(x).Some? then [f(x).value] else []
  {
    assert [x][..0] == [];
  }

  /** Every value f gives along s is kept. */
  lemma SomesKeeps<T, U>(s: seq<T>, f: T -> Option<U>, i: int)
    requires 0 <= i < |s| && f(s[i]).Some?
    ensures f(s[i]).value in Somes(s, f)
  {
    var pre, mid, post := s[..i], [s[i]], s[i + 1..];
    assert s == (pre + mid) + post;
    SomesAppend(pre + mid, post, f);
    SomesAppend(pre, mid, f);
    SomesSingle(s[i], f);
    var r := Somes(s, f);
    assert r == (Somes(pre, f) + [f(s[i]).value]) + Somes(post, f);
    assert r[|Somes(pre, f)|] == f(s[i]).value;
  }

  /** Every kept value is one that f gives on some element of s. */
  lemma {:induction false} SomesFrom<T, U>(s: seq<T>, f: T -> Option<U>, j: int)
    requires 0 <= j < |Somes(s, f)|
    ensures exists i :: 0 <= i < |s| && f(s[i]) == Some(Somes(s, f)[j])
  {
    var init := s[..|s| - 1];
    var p := Somes(init, f);
    if j < |p| {
      SomesFrom(init, f, j);
      var i :| 0 <= i < |init| && f(init[i]) == Some(p[j]);
      assert init[i] == s[i];
    }
  }

  /** The kept form of one line: stripped, or None when the line is blank. */
  function KeptLine(line: string): (r: Option<string>)
    ensures r.None? <==> AllSpace(line)
    ensures r.Some? ==> r.value == Strip(line) && r.value != []
  {
    var l := Strip(line);
    if l != [] then Some(l) else None
  }

  lemma SomesKeptLineNonEmpty(lines: seq<string>)
    ensures forall j :: 0 <= j < |Somes(lines, KeptLine)| ==> Somes(lines, KeptLine)[j] != []
  {
    forall j | 0 <= j < |Somes(lines, KeptLine)|
      ensures Somes(lines, KeptLine)[j] != []
    {
      SomesFrom(lines, KeptLine, j);
    }
  }

  /** [line.strip() for line in f if line.strip()] */
  function NonBlank(lines: seq<string>): (r: seq<string>)
    ensures |r| <= |lines|
    ensures forall i :: 0 <= i < |r| ==> r[i] != []
  {
    SomesKeptLineNonEmpty(lines);
    Somes(lines, KeptLine)
  }

  /** The line filter works line by line: the kept lines of a concatenation are those of
      its parts, in order. */
  lemma NonBlankAppend(a: seq<string>, b: seq<string>)
    ensures NonBlank(a + b) == NonBlank(a) + NonBlank(b)
  {
    SomesAppend(a, b, KeptLine);
  }

  /** One line is kept, stripped, exactly when it is not blank. */
  lemma NonBlankSingle(l: string)
    ensures NonBlank([l]) == if AllSpace(l) then [] else [Strip(l)]
  {
    SomesSingle(l, KeptLine);
  }

  /** Every non-blank line is kept, in stripped form. */
  lemma NonBlankKeeps(lines: seq<string>, i: int)
    requires 0 <= i < |lines| && !AllSpace(lines[i])
    ensures Strip(lines[i]) in NonBlank(lines)
  {
    SomesKeeps(lines, KeptLine, i);
  }

  /** s is the stripped form of one of the lines. */
  predicate StrippedFrom(lines: seq<string>, s: string) {
    exists i :: 0 <= i < |lines| && s == Strip(lines[i])
  }

  /** Every kept line is the stripped form of some input line. */
  lemma NonBlankFrom(lines: seq<string>, j: int)
    requires 0 <= j < |NonBlank(lines)|
    ensures StrippedFrom(lines, NonBlank(lines)[j])
  {
    SomesFrom(lines, KeptLine, j);
  }

  /** The (premise, hypothesis) key of an original example. */
  function Key(e: Example): (string, string) {
    (Strip(e.premise), Strip(e.hypothesis))
  }

  /** xnli_mapping after the first n training examples: later examples overwrite. */
  function Mapping(train: seq<Example>): (m: map<(string, string), Label>)
    ensures m.Keys == Keys(train)
  {
    if train == [] then map[]
    else
      var init, last := train[..|train| - 1], train[|train| - 1];
      KeysSnoc(train);
      UpdateKeys(Mapping(init), Key(last), last.gold);
      Mapping(init)[Key(last) := last.gold]
  }

  lemma UpdateKeys<K, V>(m: map<K, V>, k: K, v: V)
    ensures m[k := v].Keys == m.Keys + {k}
  {
  }

  /** The keys of the examples. */
  function Keys(train: seq<Example>): set<(string, string)> {
    Image(train, Key)
  }

  /** The set of f's values over a sequence. */
  function Image<T, U>(s: seq<T>, f: T -> U): set<U> {
    set i | 0 <= i < |s| :: f(s[i])
  }

  lemma ImageSnoc<T, U>(s: seq<T>, f: T -> U)
    requires s != []
    ensures Image(s, f) == Image(s[..|s| - 1], f) + {f(s[|s| - 1])}
  {
    var init := s[..|s| - 1];
    forall y | y in Image(s, f)
      ensures y in Image(init, f) + {f(s[|s| - 1])}
    {
      var i :| 0 <= i < |s| && y == f(s[i]);
      if i < |init| {
        assert init[i] == s[i];
      }
    }
    forall y | y in Image(init, f)
      ensures y in Image(s, f)
    {
      var i :| 0 <= i < |init| && y == f(init[i]);
      assert s[i] == init[i];
    }
  }

  lemma KeysSnoc(train: seq<Example>)
    requires train != []
    ensures Keys(train) == Keys(train[..|train| - 1]) + {Key(train[|train| - 1])}
  {
    ImageSnoc(train, Key);
  }

  /** Reference definition: the label of the last training example with key k. */
  function LastLabel(train: seq<Example>, k: (string, string)): Option<Label> {
    if train == [] then None
    else if Key(train[|train| - 1]) == k then Some(train[|train| - 1].gold)
    else LastLabel(train[..|train| - 1], k)
  }

  /** The mapping loop keeps, for every key, the label of the last example with that key,
      and holds no other keys. */
  lemma {:induction false} MappingLastWins(train: seq<Example>)
    ensures forall k :: k in Mapping(train) <==> LastLabel(train, k).Some?
    ensures forall k :: k in Mapping(train) ==> LastLabel(train, k) == Some(Mapping(train)[k])
  {
    if train != [] {
      MappingLastWins(train[..|train| - 1]);
    }
  }

  lemma MappingSnoc(train: seq<Example>, i: nat)
    requires i < |train|
    ensures Mapping(train[..i + 1]) == Mapping(train[..i])[Key(train[i]) := train[i].gold]
  {
    var t := train[..i + 1];
    assert t[..|t| - 1] == train[..i];
    assert t[|t| - 1] == train[i];
    assert Mapping(t) == Mapping(t[..|t| - 1])[Key(t[|t| - 1]) := t[|t| - 1].gold];
  }

  /** The loop that fills xnli_mapping. */
  method BuildMapping(train: seq<Example>) returns (m: map<(string, string), Label>)
    ensures m == Mapping(train)
  {
    m := map[];
    for i := 0 to |train|
      invariant m == Mapping(train[..i])
    {
      MappingSnoc(train, i);
      var ex := train[i];
      var key := (Strip(ex.premise), Strip(ex.hypothesis));
      m := m[key := ex.gold];
    }
    assert train[..|train|] == train;
  }

  /** The label written for a code-switched example: a known name becomes its class
      number, and an unknown name or a number is kept. */
  function TextLabel(l: Label): Label {
    if l.Name? then Normalize(l) else l
  }

  /** The code-switched example i: lines 2i and 2i+1 with the label of original pair i. */
  function PairedExample(cs: seq<string>, orig: seq<string>, m: map<(string, string), Label>, i: nat): Example
    requires 2 * i + 1 < |cs| && 2 * i + 1 < |orig| && (orig[2 * i], orig[2 * i + 1]) in m
  {
    Example(cs[2 * i], cs[2 * i + 1], TextLabel(m[(orig[2 * i], orig[2 * i + 1])]))
  }

  /** Every one of the first n original pairs is a key of the mapping. */
  predicate AllPaired(orig: seq<string>, m: map<(string, string), Label>, n: nat)
    requires 2 * n <= |orig|
  {
    forall i :: 0 <= i < n ==> (orig[2 * i], orig[2 * i + 1]) in m
  }

  /** The loop over the pairs: example i for each of the first n pairs, or ValueError at
      the first original pair the mapping does not hold. */
  method PairLines(cs: seq<string>, orig: seq<string>, m: map<(string, string), Label>, n: nat)
    returns (r: Result<seq<Example>>)
    requires 2 * n <= |cs| && 2 * n <= |orig|
    ensures r.Ok? <==> AllPaired(orig, m, n)
    ensures r.Err? ==> r.error == ValueError
    ensures r.Ok? ==> |r.value| == n && forall i :: 0 <= i < n ==> r.value[i] == PairedExample(cs, orig, m, i)
  {
    var dataset: seq<Example> := [];
    for i := 0 to n
      invariant |dataset| == i
      invariant AllPaired(orig, m, i)
      invariant forall j :: 0 <= j < i ==> dataset[j] == PairedExample(cs, orig, m, j)
    {
      var origPair := (orig[2 * i], orig[2 * i + 1]);
      if origPair !in m {
        return Err(ValueError);
      }
      var gold := m[origPair];
      dataset := dataset + [Example(cs[2 * i], cs[2 * i + 1], if gold.Name? then Normalize(gold) else gold)];
    }
    return Ok(dataset);
  }

  /** get_set on a code-switched text file, its original file, and the training split the
      labels come from. Unequal pair counts fail the assertion; an original pair missing
      from the training split raises ValueError, the first one in order; otherwise
      example i is code-switched lines 2i and 2i+1 labelled as original pair i, and an odd
      last line is ignored. */
  method GetSetText(csFile: seq<string>, origFile: seq<string>, train: seq<Example>) returns (r: Result<seq<Example>>)
    ensures var cs, orig := NonBlank(csFile), NonBlank(origFile);
      && (r == Err(AssertionError) <==> |cs| / 2 != |orig| / 2)
      && (|cs| / 2 == |orig| / 2 ==>
            && (r.Ok? <==> AllPaired(orig, Mapping(train), |orig| / 2))
            && (r.Err? ==> r.error == ValueError)
            && (r.Ok? ==>
                  && |r.value| == |orig| / 2
                  && forall i :: 0 <= i < |r.value| ==> r.value[i] == PairedExample(cs, orig, Mapping(train), i)))
  {
    var csLines := NonBlank(csFile);
    var numCsExamples := |csLines| / 2;
    var origLines := NonBlank(origFile);
    var numOrigExamples := |origLines| / 2;
    if numCsExamples != numOrigExamples {
      return Err(AssertionError);
    }
    var xnliMapping := BuildMapping(train);
    r := PairLines(csLines, origLines, xnliMapping, numOrigExamples);
  }

  /** An unknown label name survives the text branch unmapped, where the other branch
      drops the example. */
  lemma UnknownNameKeptInTextBranch(e: Example)
    requires e.gold.Name? && e.gold.name !in LABEL_MAP
    ensures TextLabel(e.gold) == e.gold
    ensures Kept([e]) == []
  {
    KeptSingle(e);
  }

  // ---------------------------------------------------------------------------
  // get_idx_dict

  /** The (source, target) pair of a dictionary line: split on the tab, and when that
      does not give exactly two fields, on the space; None where unpacking raises
      ValueError. */
  function LinePair(line: string): Option<(string, string)> {
    var tabbed := SplitOn(line, '\t');
    if |tabbed| == 2 then Some((tabbed[0], tabbed[1]))
    else
      var spaced := SplitOn(line, ' ');
      if |spaced| == 2 then Some((spaced[0], spaced[1])) else None
  }

  /** A line that gives a pair is exactly source, tab, target with tab-free parts, or
      source, space, target with space-free parts. */
  lemma LinePairRebuilds(line: string)
    requires LinePair(line).Some?
    ensures var (src, tgt) := LinePair(line).value;
      || ('\t' !in src && '\t' !in tgt && line == src + "\t" + tgt)
      || (' ' !in src && ' ' !in tgt && line == src + " " + tgt)
  {
    JoinSplitOn(line, '\t');
    JoinSplitOn(line, ' ');
  }

  /** Conversely, source, tab, target with tab-free parts gives that pair, and so does
      source, space, target when neither part has a tab or a space. */
  lemma LinePairOf(src: string, tgt: string)
    ensures '\t' !in src && '\t' !in tgt ==> LinePair(src + "\t" + tgt) == Some((src, tgt))
    ensures '\t' !in src && '\t' !in tgt && ' ' !in src && ' ' !in tgt ==>
      LinePair(src + " " + tgt) == Some((src, tgt))
  {
    if '\t' !in src && '\t' !in tgt {
      assert src + "\t" + tgt == src + ['\t'] + tgt;
      SplitOnCons(src, tgt, '\t');
      SplitOnNone(tgt, '\t');
      if ' ' !in src && ' ' !in tgt {
        var line := src + " " + tgt;
        assert line == src + [' '] + tgt;
        assert '\t' !in line;
        SplitOnNone(line, '\t');
        SplitOnCons(src, tgt, ' ');
        SplitOnNone(tgt, ' ');
      }
    }
  }

  /** The index of the first line that gives no pair, or the number of lines. */
  function FirstBad(raw: seq<string>): (n: nat)
    ensures n <= |raw|
    ensures forall i :: 0 <= i < n ==> LinePair(raw[i]).Some?
    ensures n < |raw| ==> LinePair(raw[n]).None?
  {
    if raw == [] then 0
    else if LinePair(raw[0]).None? then 0
    else 1 + FirstBad(raw[1..])
  }

  /** The pairs of lines that all give one. */
  function Pairs(raw: seq<string>): seq<(string, string)>
    requires forall i :: 0 <= i < |raw| ==> LinePair(raw[i]).Some?
  {
    if raw == [] then [] else Pairs(raw[..|raw| - 1]) + [LinePair(raw[|raw| - 1]).value]
  }

  lemma PairsSnoc(raw: seq<string>, i: nat)
    requires i < |raw| && forall j :: 0 <= j <= i ==> LinePair(raw[j]).Some?
    ensures Pairs(raw[..i + 1]) == Pairs(raw[..i]) + [LinePair(raw[i]).value]
  {
    var r := raw[..i + 1];
    assert r[..|r| - 1] == raw[..i];
    assert r[|r| - 1] == raw[i];
  }

  /** The dictionary built from the first n lines, all of which give a pair. */
  function DictOf(raw: seq<string>, n: nat): Dict
    requires n <= FirstBad(raw)
  {
    Grouped(Pairs(raw[..n]))
  }

  /** One more line that gives a pair: its target is added under its source. */
  lemma GroupedStep(raw: seq<string>, i: nat)
    requires i < FirstBad(raw)
    ensures var (src, tgt) := LinePair(raw[i]).value;
      DictOf(raw, i + 1) == Add(DictOf(raw, i), src, tgt)
  {
    PairsSnoc(raw, i);
    var (src, tgt) := LinePair(raw[i]).value;
    GroupedSnoc(Pairs(raw[..i]), src, tgt);
  }

  /** A new source gets the one-element list [tgt]; a known one has tgt appended. */
  method AddPair(d: Dict, src: string, tgt: string) returns (r: Dict)
    ensures r == Add(d, src, tgt)
  {
    if src !in d {
      assert [] + [tgt] == [tgt];
      r := d[src := [tgt]];
    } else {
      r := d[src := d[src] + [tgt]];
    }
  }

  /** The dictionaries read so far (idx_dict.src2tgt). */
  class IdxDict {
    var src2tgt: seq<Dict>

    constructor ()
      ensures src2tgt == []
    {
      src2tgt := [];
    }

    /** get_idx_dict on the lines of one dictionary file: exactly one dictionary is
        appended; it groups the targets of each source in line order, and when a line
        gives no pair the ValueError leaves it holding the lines before that one. */
    method GetIdxDict(raw: seq<string>) returns (err: Option<Error>)
      modifies this
      ensures src2tgt == old(src2tgt) + [DictOf(raw, FirstBad(raw))]
      ensures err == if FirstBad(raw) < |raw| then Some(ValueError) else None
    {
      src2tgt := src2tgt + [map[]];
      var last := |src2tgt| - 1;
      for i := 0 to |raw|
        invariant i <= FirstBad(raw)
        invariant src2tgt == old(src2tgt) + [DictOf(raw, i)]
      {
        var pair := LinePair(raw[i]);
        if pair.None? {
          return Some(ValueError);
        }
        var src, tgt := pair.value.0, pair.value.1;
        GroupedStep(raw, i);
        var d := AddPair(src2tgt[last], src, tgt);
        src2tgt := src2tgt[last := d];
        assert src2tgt == old(src2tgt) + [d];
      }
      return None;
    }
  }
}
