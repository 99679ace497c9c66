/** The dictionary code-switching augmenter (data_augment/baseline_augment.py): a
    bilingual dictionary read into lowercase source word -> target words, and the
    word-by-word substitution driven by random draws, which are parameters here. */
module BaselineAugment {
  import opened Common
  import opened Strings
  import opened Multimap

  // ---------------------------------------------------------------------------
  // load_dictionary

  /** The (lowercased source, target) entry of one dictionary line, or None for a blank
      line or one with fewer than two whitespace fields. */
  function Entry(line: string): Option<(string, string)> {
    var l := Strip(line);
    if l == [] then None
    else
      var parts := SplitWs(l);
      if |parts| < 2 then None else Some((Lower(parts[0]), parts[1]))
  }

  /** A line gives an entry exactly when it has at least two whitespace fields; the key is
      the first field lowercased, the target the second, and later fields are ignored. */
  lemma EntrySpec(line: string)
    ensures Entry(line).None? <==> |SplitWs(line)| < 2
    ensures Entry(line).Some? ==> Entry(line).value == (Lower(SplitWs(line)[0]), SplitWs(line)[1])
  {
    SplitWsStrip(line);
    if Strip(line) == [] {
      SplitWsAllSpace(line);
    }
  }

  /** The entries of the dictionary lines, in file order. */
  function Entries(lines: seq<string>): seq<(string, string)> {
    if lines == [] then []
    else
      var e := Entry(lines[|lines| - 1]);
      Entries(lines[..|lines| - 1]) + (if e.Some? then [e.value] else [])
  }

  lemma EntriesSnoc(lines: seq<string>, i: nat)
    requires i < |lines|
    ensures Entry(lines[i]).None? ==> Entries(lines[..i + 1]) == Entries(lines[..i])
    ensures Entry(lines[i]).Some? ==> Entries(lines[..i + 1]) == Entries(lines[..i]) + [Entry(lines[i]).value]
  {
    assert lines[..i + 1][..i] == lines[..i];
    assert Entries(lines[..i]) + [] == Entries(lines[..i]);
  }

  /** The parsing of one line in the loop of load_dictionary. */
  method ParseLine(line: string) returns (e: Option<(string, string)>)
    ensures e == Entry(line)
  {
    var stripped := Strip(line);
    if stripped == [] {
      return None;
    }
    var parts := SplitWs(stripped);
    if |parts| < 2 {
      return None;
    }
    var src, tgt := parts[0], parts[1];
    e := Some((Lower(src), tgt));
  }

  /** The list under the key is created when missing, then the target appended. */
  method AddTarget(mapping: Dict, srcLower: string, tgt: string) returns (r: Dict)
    ensures r == Add(mapping, srcLower, tgt)
  {
    r := mapping;
    if srcLower !in r {
      r := r[srcLower := []];
    }
    r := r[srcLower := r[srcLower] + [tgt]];
  }

  /** load_dictionary on the lines of the file. */
  method LoadDictionary(lines: seq<string>) returns (mapping: Dict)
    ensures mapping == Grouped(Entries(lines))
  {
    mapping := map[];
    for i := 0 to |lines|
      invariant mapping == Grouped(Entries(lines[..i]))
    {
      EntriesSnoc(lines, i);
      var e := ParseLine(lines[i]);
      if e.Some? {
        var srcLower, tgt := e.value.0, e.value.1;
        GroupedSnoc(Entries(lines[..i]), srcLower, tgt);
        mapping := AddTarget(mapping, srcLower, tgt);
      }
    }
    assert lines[..|lines|] == lines;
  }

  /** Every list of a dictionary holds at least one word, and every target is a word
      (non-empty, without whitespace). */
  predicate WordLists(d: Dict) {
    forall k :: k in d ==> d[k] != [] && AllWords(d[k])
  }

  lemma {:induction false} EntriesAreWords(lines: seq<string>)
    ensures forall i :: 0 <= i < |Entries(lines)| ==> IsWord(Entries(lines)[i].1)
  {
    if lines != [] {
      EntriesAreWords(lines[..|lines| - 1]);
    }
  }

  /** A loaded dictionary maps each key to a non-empty list of words: the targets of its
      entries, in file order, duplicates included. */
  lemma LoadedDictionary(lines: seq<string>)
    ensures WordLists(Grouped(Entries(lines)))
    ensures forall k :: k in Grouped(Entries(lines)) ==> Grouped(Entries(lines))[k] == ValuesFor(Entries(lines), k)
  {
    var es := Entries(lines);
    GroupedSpec(es);
    EntriesAreWords(lines);
    forall k | k in Grouped(es) ensures AllWords(Grouped(es)[k]) {
      var vs := Grouped(es)[k];
      forall j | 0 <= j < |vs| ensures IsWord(vs[j]) {
        assert vs[j] in vs;
      }
    }
  }

  // ---------------------------------------------------------------------------
  // cross and cross_str

  /** The draws one call of cross consumes: random.random(), and the index random.choice
      picks when it is reached. */
  datatype CrossDraw = CrossDraw(u: real, pick: nat)

  /** The draw is one random.choice could make: the pick is an index of the list chosen from. */
  predicate ValidDraw(word: string, dictList: seq<Dict>, crossProb: real, d: CrossDraw) {
    (d.u < crossProb && |dictList| >= 2 && Lower(word) in dictList[1] && dictList[1][Lower(word)] != []) ==>
      d.pick < |dictList[1][Lower(word)]|
  }

  /** cross: with probability crossProb, replace the word by one of its translations in
      the second dictionary. */
  function Cross(word: string, dictList: seq<Dict>, crossProb: real, d: CrossDraw): (r: Result<string>)
    requires ValidDraw(word, dictList, crossProb, d)
    ensures d.u >= crossProb ==> r == Ok(word)
    ensures d.u < crossProb && |dictList| < 2 ==> r == Err(IndexError)
    ensures d.u < crossProb && |dictList| >= 2 && Lower(word) !in dictList[1] ==> r == Ok(word)
    ensures d.u < crossProb && |dictList| >= 2 && Lower(word) in dictList[1] ==>
      if dictList[1][Lower(word)] == [] then r == Err(IndexError) else r.Ok? && r.value in dictList[1][Lower(word)]
  {
    if d.u < crossProb then
      if |dictList| < 2 then Err(IndexError)
      else
        var wordLower := Lower(word);
        if wordLower in dictList[1] then
          var possible := dictList[1][wordLower];
          if possible == [] then Err(IndexError) else Ok(possible[d.pick])
        else Ok(word)
    else Ok(word)
  }

  /** The list comprehension over the words: cross on each word in order, the first
      exception propagating. */
  function CrossAll(words: seq<string>, dictList: seq<Dict>, crossProb: real, draws: seq<CrossDraw>): (r: Result<seq<string>>)
    requires |draws| == |words|
    requires forall i :: 0 <= i < |words| ==> ValidDraw(words[i], dictList, crossProb, draws[i])
    ensures r.Ok? <==> forall i :: 0 <= i < |words| ==> Cross(words[i], dictList, crossProb, draws[i]).Ok?
    ensures r.Err? ==> r.error == IndexError
    ensures r.Ok? ==> |r.value| == |words|
    ensures r.Ok? ==> forall i :: 0 <= i < |words| ==> Cross(words[i], dictList, crossProb, draws[i]) == Ok(r.value[i])
  {
    if words == [] then Ok([])
    else match Cross(words[0], dictList, crossProb, draws[0])
      case Err(e) => Err(e)
      case Ok(w) =>
        match CrossAll(words[1..], dictList, crossProb, draws[1..])
        case Err(e) => Err(e)
        case Ok(ws) => Ok([w] + ws)
  }

  /** cross_str: on a ratio draw below ratio, every word is passed through cross; the words
      are joined with single spaces either way. */
  function CrossStr(sentence: string, dictList: seq<Dict>, crossProb: real, ratio: real, ratioDraw: real,
                    draws: seq<CrossDraw>): (r: Result<string>)
    requires |draws| == |SplitWs(Strip(sentence))|
    requires forall i :: 0 <= i < |draws| ==> ValidDraw(SplitWs(Strip(sentence))[i], dictList, crossProb, draws[i])
    ensures ratioDraw >= ratio ==> r.Ok?
    ensures r.Ok? <==>
      || ratioDraw >= ratio
      || forall i :: 0 <= i < |draws| ==> Cross(SplitWs(Strip(sentence))[i], dictList, crossProb, draws[i]).Ok?
    ensures r.Err? ==> r.error == IndexError
  {
    var words := SplitWs(Strip(sentence));
    if ratioDraw < ratio then
      match CrossAll(words, dictList, crossProb, draws)
      case Err(e) => Err(e)
      case Ok(augmented) => Ok(JoinSpace(augmented))
    else Ok(JoinSpace(words))
  }

  /** Without augmentation, cross_str only normalises whitespace: the result is the
      sentence's words joined by single spaces, and splitting it gives the words back. */
  lemma CrossStrUnchanged(sentence: string, dictList: seq<Dict>, crossProb: real, ratio: real, ratioDraw: real,
                          draws: seq<CrossDraw>)
    requires |draws| == |SplitWs(Strip(sentence))|
    requires forall i :: 0 <= i < |draws| ==> ValidDraw(SplitWs(Strip(sentence))[i], dictList, crossProb, draws[i])
    requires ratioDraw >= ratio
    ensures CrossStr(sentence, dictList, crossProb, ratio, ratioDraw, draws) == Ok(JoinSpace(SplitWs(sentence)))
    ensures SplitWs(CrossStr(sentence, dictList, crossProb, ratio, ratioDraw, draws).value) == SplitWs(sentence)
  {
    SplitWsStrip(sentence);
    SplitJoinSpace(SplitWs(sentence));
  }

  /** Crossing words against a dictionary of word lists gives words: each output word is
      the input word or one of its translations. */
  lemma {:induction false} CrossAllWords(words: seq<string>, dictList: seq<Dict>, crossProb: real, draws: seq<CrossDraw>)
    requires |draws| == |words| && AllWords(words)
    requires forall i :: 0 <= i < |words| ==> ValidDraw(words[i], dictList, crossProb, draws[i])
    requires |dictList| >= 2 && WordLists(dictList[1])
    requires CrossAll(words, dictList, crossProb, draws).Ok?
    ensures AllWords(CrossAll(words, dictList, crossProb, draws).value)
    ensures forall i :: 0 <= i < |words| ==>
      var w := CrossAll(words, dictList, crossProb, draws).value[i];
      w == words[i] || (Lower(words[i]) in dictList[1] && w in dictList[1][Lower(words[i])])
  {
    var augmented := CrossAll(words, dictList, crossProb, draws).value;
    forall i | 0 <= i < |words|
      ensures IsWord(augmented[i])
      ensures augmented[i] == words[i] || (Lower(words[i]) in dictList[1] && augmented[i] in dictList[1][Lower(words[i])])
    {
      assert Cross(words[i], dictList, crossProb, draws[i]) == Ok(augmented[i]);
      if augmented[i] != words[i] {
        var l := dictList[1][Lower(words[i])];
        var j :| 0 <= j < |l| && l[j] == augmented[i];
        assert IsWord(l[j]);
      }
    }
  }

  /** When the second dictionary holds lists of words (as every loaded dictionary does),
      cross_str keeps the number of words, and word i of the output is word i of the input
      or one of its translations. */
  lemma {:induction false} CrossStrWords(sentence: string, dictList: seq<Dict>, crossProb: real, ratio: real,
                                         ratioDraw: real, draws: seq<CrossDraw>)
    requires |draws| == |SplitWs(Strip(sentence))|
    requires forall i :: 0 <= i < |draws| ==> ValidDraw(SplitWs(Strip(sentence))[i], dictList, crossProb, draws[i])
    requires |dictList| >= 2 && WordLists(dictList[1])
    requires CrossStr(sentence, dictList, crossProb, ratio, ratioDraw, draws).Ok?
    ensures var out := SplitWs(CrossStr(sentence, dictList, crossProb, ratio, ratioDraw, draws).value);
      && |out| == |SplitWs(sentence)|
      && forall i :: 0 <= i < |out| ==>
           out[i] == SplitWs(sentence)[i]
           || (Lower(SplitWs(sentence)[i]) in dictList[1] && out[i] in dictList[1][Lower(SplitWs(sentence)[i])])
  {
    var words := SplitWs(Strip(sentence));
    SplitWsStrip(sentence);
    if ratioDraw < ratio {
      CrossAllWords(words, dictList, crossProb, draws);
      SplitJoinSpace(CrossAll(words, dictList, crossProb, draws).value);
    } else {
      SplitJoinSpace(words);
    }
  }
}
