/**
 * `TextDataset`: the word list of a corpus, its vocabulary of the most
 * frequent words, the word <-> index maps, the encoded text, and the
 * fixed-length training windows served by `__len__` and `__getitem__`.
 */
module DataLoader {
  import opened Wrappers
  import opened Text
  import opened Tally

  // ---------------------------------------------------------------------------
  // Python sequence access
  // ---------------------------------------------------------------------------

  /** A slice bound as Python clamps it: a negative bound counts from the end. */
  function SliceBound(n: nat, b: int): (k: nat)
    ensures k <= n
    ensures 0 <= b <= n ==> k == b
  {
    if b < 0 then (if b + n > 0 then b + n else 0) else if b < n then b else n
  }

  /** `s[a:b]`, which never fails. */
  function PySlice<T>(s: seq<T>, a: int, b: int): (r: seq<T>)
    ensures 0 <= a <= b <= |s| ==> r == s[a..b]
    ensures |r| <= |s|
  {
    var lo := SliceBound(|s|, a);
    var hi := SliceBound(|s|, b);
    if lo < hi then s[lo..hi] else []
  }

  /** `s[i]`: a negative index counts from the end, anything else out of range is an `IndexError`. */
  function PyIndex<T>(s: seq<T>, i: int): (r: Result<T>)
    ensures r.Ok? <==> -|s| <= i < |s|
    ensures 0 <= i < |s| ==> r == Ok(s[i])
    ensures r.Err? ==> r.error == IndexError
  {
    if 0 <= i < |s| then Ok(s[i])
    else if -|s| <= i < 0 then Ok(s[i + |s|])
    else Err(IndexError)
  }

  // ---------------------------------------------------------------------------
  // The word list
  // ---------------------------------------------------------------------------

  /** `df['text'].dropna().str.lower().tolist()` */
  function LowerTexts(texts: seq<Option<string>>): (ls: seq<string>)
    ensures |ls| <= |texts|
  {
    if texts == [] then []
    else (if texts[0].Some? then [Lower(texts[0].value)] else []) + LowerTexts(texts[1..])
  }

  /** `" ".join(text_data).split()` */
  function WordList(texts: seq<Option<string>>): seq<string> {
    Words(Join(" ", LowerTexts(texts)))
  }

  /** The word list is the lower-cased present texts' words, text after text; missing texts add none. */
  lemma WordListOfTexts(texts: seq<Option<string>>)
    ensures WordList(texts) == WordsOfEach(LowerTexts(texts))
  {
    WordsOfJoin(LowerTexts(texts));
  }

  // ---------------------------------------------------------------------------
  // The vocabulary
  // ---------------------------------------------------------------------------

  /** `sorted(Counter(words), key=counts.get, reverse=True)[:max_vocab_size]` */
  function Vocabulary(words: seq<string>, maxVocabSize: int): (v: seq<string>)
    ensures NoDuplicates(v)
    ensures maxVocabSize >= 0 ==> |v| <= maxVocabSize
    ensures forall w :: w in v ==> w in words
  {
    var r := ValueCounts(words);
    PrefixOfSorted(r, maxVocabSize);
    Keys(PrefixSlice(r, maxVocabSize))
  }

  /** Every word left out of the vocabulary occurs at most as often as any word in it. */
  lemma MostFrequentKept(words: seq<string>, maxVocabSize: int, w: string, i: int)
    requires w in words && w !in Vocabulary(words, maxVocabSize)
    requires 0 <= i < |Vocabulary(words, maxVocabSize)|
    ensures Count(words, Vocabulary(words, maxVocabSize)[i]) >= Count(words, w)
  {
    var r := ValueCounts(words);
    var p := PrefixSlice(r, maxVocabSize);
    var j := PrefixDominates(r, |p|, w, i);
    assert Vocabulary(words, maxVocabSize)[i] == r[i].0;
  }

  /** The vocabulary in order of decreasing frequency. */
  lemma VocabularyOrdered(words: seq<string>, maxVocabSize: int, i: int, j: int)
    requires 0 <= i < j < |Vocabulary(words, maxVocabSize)|
    ensures Count(words, Vocabulary(words, maxVocabSize)[i]) >= Count(words, Vocabulary(words, maxVocabSize)[j])
  {
    var r := ValueCounts(words);
    var v := Vocabulary(words, maxVocabSize);
    assert v[i] == r[i].0 && v[j] == r[j].0;
  }

  /** Without a cap the vocabulary holds every distinct word. */
  lemma VocabularyComplete(words: seq<string>, maxVocabSize: int, w: string)
    requires maxVocabSize >= |words| && w in words
    ensures w in Vocabulary(words, maxVocabSize)
  {
    var r := ValueCounts(words);
    Tally.TallyKeys(words);
    DistinctShorter(words);
    assert PrefixSlice(r, maxVocabSize) == r;
    assert w in Keys(r);
  }

  lemma {:induction false} DistinctShorter(xs: seq<string>)
    ensures |Distinct(xs)| <= |xs|
  {
    if xs != [] {
      DistinctShorter(xs[..|xs| - 1]);
    }
  }

  lemma {:induction false} WithCountAppend(a: seq<(string, nat)>, b: seq<(string, nat)>, c: nat)
    ensures WithCount(a + b, c) == WithCount(a, c) + WithCount(b, c)
    decreases |a|
  {
    if a == [] {
      assert a + b == b;
    } else {
      assert a + b == [a[0]] + (a[1..] + b);
      assert a == [a[0]] + a[1..];
      WithCountCons(a[0], a[1..] + b, c);
      WithCountCons(a[0], a[1..], c);
      WithCountAppend(a[1..], b, c);
    }
  }

  lemma {:induction false} KeysAppend(a: seq<(string, nat)>, b: seq<(string, nat)>)
    ensures Keys(a + b) == Keys(a) + Keys(b)
  {
  }

  /**
   * Ties: among the words occurring `c` times, the vocabulary keeps the ones
   * seen first, in the order they were first seen.
   */
  lemma TiesKeepFirstSeen(words: seq<string>, maxVocabSize: int, c: nat)
    ensures exists m ::
      && 0 <= m <= |WithCount(Tally.Tally(words), c)|
      && Keys(WithCount(PrefixSlice(ValueCounts(words), maxVocabSize), c)) == Keys(WithCount(Tally.Tally(words), c))[..m]
  {
    var t := Tally.Tally(words);
    var r := ValueCounts(words);
    assert r == SortByCount(t);
    var n := |PrefixSlice(r, maxVocabSize)|;
    SortedPrefixTies(t, n, c);
  }

  /** A prefix of the stable sort holds, of the entries with count `c`, the first few in their original order. */
  lemma SortedPrefixTies(t: seq<(string, nat)>, n: nat, c: nat)
    requires n <= |t|
    ensures exists m ::
      && 0 <= m <= |WithCount(t, c)|
      && Keys(WithCount(SortByCount(t)[..n], c)) == Keys(WithCount(t, c))[..m]
  {
    var r := SortByCount(t);
    var p := r[..n];
    SortByCountStable(t, c);
    assert r == p + r[n..];
    WithCountAppend(p, r[n..], c);
    KeysAppend(WithCount(p, c), WithCount(r[n..], c));
    var m := |WithCount(p, c)|;
    assert Keys(WithCount(p, c)) == Keys(WithCount(t, c))[..m];
  }

  // ---------------------------------------------------------------------------
  // Word <-> index maps and the encoding
  // ---------------------------------------------------------------------------

  /** The last position of `w`: the index a dict comprehension over `enumerate` keeps. */
  function LastIndex(v: seq<string>, w: string): (i: nat)
    requires w in v
    ensures i < |v| && v[i] == w
    ensures forall j :: i < j < |v| ==> v[j] != w
  {
    if v[|v| - 1] == w then |v| - 1
    else
      assert w in v[..|v| - 1];
      LastIndex(v[..|v| - 1], w)
  }

  /** `{word: i for i, word in enumerate(vocab)}` */
  function WordToInt(v: seq<string>): (m: map<string, nat>)
    ensures forall w :: w in m <==> w in v
  {
    map w | w in v :: LastIndex(v, w)
  }

  /** `{i: word for word, i in word_to_int.items()}` */
  function IntToWord(v: seq<string>): (m: map<nat, string>)
  {
    map w | w in v :: LastIndex(v, w) := w
  }

  /** In a vocabulary without repeats every word is mapped to its position. */
  lemma WordToIntPositions(v: seq<string>)
    requires NoDuplicates(v)
    ensures forall i :: 0 <= i < |v| ==> v[i] in WordToInt(v) && WordToInt(v)[v[i]] == i
  {
    forall i | 0 <= i < |v| ensures WordToInt(v)[v[i]] == i {
      var k := LastIndex(v, v[i]);
    }
  }

  /** `int_to_word` undoes `word_to_int` and the other way round. */
  lemma MapsInverse(v: seq<string>)
    ensures forall w :: w in WordToInt(v) ==> WordToInt(v)[w] in IntToWord(v) && IntToWord(v)[WordToInt(v)[w]] == w
    ensures forall i :: i in IntToWord(v) ==> IntToWord(v)[i] in WordToInt(v) && WordToInt(v)[IntToWord(v)[i]] == i
  {
    var fwd := WordToInt(v);
    var inv := IntToWord(v);
    forall w | w in fwd ensures fwd[w] in inv && inv[fwd[w]] == w {
      assert fwd[w] == LastIndex(v, w);
    }
    forall i | i in inv ensures inv[i] in fwd && fwd[inv[i]] == i {
      var w :| w in v && LastIndex(v, w) == i;
      assert inv[i] == w;
    }
  }

  /** In a vocabulary without repeats the indices are exactly 0 .. len(vocab) - 1, each naming its word. */
  lemma IntToWordPositions(v: seq<string>)
    requires NoDuplicates(v)
    ensures forall i :: i in IntToWord(v) <==> 0 <= i < |v|
    ensures forall i :: 0 <= i < |v| ==> IntToWord(v)[i] == v[i]
  {
    WordToIntPositions(v);
    var inv := IntToWord(v);
    forall i | 0 <= i < |v| ensures i in inv && inv[i] == v[i] {
      assert LastIndex(v, v[i]) == i;
    }
  }

  /** `[word_to_int[w] for w in words if w in word_to_int]` */
  function Encode(words: seq<string>, m: map<string, nat>): (e: seq<nat>)
    ensures |e| == |Known(words, m)|
  {
    if words == [] then []
    else (if words[0] in m then [m[words[0]]] else []) + Encode(words[1..], m)
  }

  /** The words found in the map, in order. */
  function Known(words: seq<string>, m: map<string, nat>): (ks: seq<string>)
    ensures forall w :: w in ks ==> w in m
    ensures |ks| <= |words|
  {
    if words == [] then []
    else (if words[0] in m then [words[0]] else []) + Known(words[1..], m)
  }

  /** Indices back to words, through `int_to_word`. */
  function Decode(e: seq<nat>, inv: map<nat, string>): (ws: seq<string>)
    requires forall k :: 0 <= k < |e| ==> e[k] in inv
    ensures |ws| == |e| && forall k :: 0 <= k < |e| ==> ws[k] == inv[e[k]]
  {
    if e == [] then [] else [inv[e[0]]] + Decode(e[1..], inv)
  }

  /** Every code is an index of the vocabulary. */
  lemma {:induction false} EncodeBelow(words: seq<string>, v: seq<string>)
    ensures forall k :: 0 <= k < |Encode(words, WordToInt(v))| ==> Encode(words, WordToInt(v))[k] < |v|
    ensures forall k :: 0 <= k < |Encode(words, WordToInt(v))| ==> Encode(words, WordToInt(v))[k] in IntToWord(v)
  {
    if words != [] {
      EncodeBelow(words[1..], v);
      if words[0] in WordToInt(v) {
        assert WordToInt(v)[words[0]] == LastIndex(v, words[0]);
      }
    }
  }

  /** Decoding the encoded text gives back the words that are in the vocabulary, in order. */
  lemma {:induction false} DecodeEncode(words: seq<string>, v: seq<string>)
    ensures forall k :: 0 <= k < |Encode(words, WordToInt(v))| ==> Encode(words, WordToInt(v))[k] in IntToWord(v)
    ensures Decode(Encode(words, WordToInt(v)), IntToWord(v)) == Known(words, WordToInt(v))
  {
    EncodeBelow(words, v);
    if words != [] {
      DecodeEncode(words[1..], v);
      var m := WordToInt(v);
      var e := Encode(words, m);
      MapsInverse(v);
      if words[0] in m {
        assert e == [m[words[0]]] + Encode(words[1..], m);
        assert e[1..] == Encode(words[1..], m);
      } else {
        assert e == Encode(words[1..], m);
      }
    }
  }

  // ---------------------------------------------------------------------------
  // The dataset
  // ---------------------------------------------------------------------------

  /** The relations `__init__` sets up between the text, its words, the vocabulary, the maps and the codes. */
  ghost predicate Derived(
    fullText: string, words: seq<string>, vocab: seq<string>,
    wordToInt: map<string, nat>, intToWord: map<nat, string>, encodedText: seq<nat>)
  {
    && words == Words(fullText)
    && NoDuplicates(vocab)
    && (forall w :: w in vocab ==> w in words)
    && wordToInt == WordToInt(vocab)
    && intToWord == IntToWord(vocab)
    && encodedText == Encode(words, wordToInt)
  }

  class TextDataset {
    var sequenceLength: int
    var fullText: string
    var words: seq<string>
    var vocab: seq<string>
    var wordToInt: map<string, nat>
    var intToWord: map<nat, string>
    var encodedText: seq<nat>

    /** How the fields derive from one another. */
    ghost predicate Valid()
      reads this
    {
      Derived(fullText, words, vocab, wordToInt, intToWord, encodedText)
    }

    /** `__init__` on the `text` column of the table, `None` for a missing cell. */
    constructor (texts: seq<Option<string>>, sequenceLength: int, maxVocabSize: int)
      ensures Valid()
      ensures this.sequenceLength == sequenceLength
      ensures fullText == Join(" ", LowerTexts(texts)) && words == WordList(texts)
      ensures vocab == Vocabulary(words, maxVocabSize)
    {
      var textData := LowerTexts(texts);
      var full := Join(" ", textData);
      var ws := Words(full);
      var v := Vocabulary(ws, maxVocabSize);
      var m := WordToInt(v);
      var inv := IntToWord(v);
      var e := Encode(ws, m);
      assert Derived(full, ws, v, m, inv, e);
      this.sequenceLength := sequenceLength;
      fullText := full;
      words := ws;
      vocab := v;
      wordToInt := m;
      intToWord := inv;
      encodedText := e;
    }

    /** `__len__`: how many windows start at a valid position. */
    function Length(): int
      reads this
    {
      |encodedText| - sequenceLength
    }

    /** `__getitem__`: a window of codes and the code that follows it. */
    function GetItem(idx: int): (r: Result<(seq<nat>, nat)>)
      reads this
      ensures r.Ok? <==> -|encodedText| <= idx + sequenceLength < |encodedText|
      ensures r.Err? ==> r.error == IndexError
      ensures 0 <= idx < Length() && sequenceLength >= 0 ==>
        && r.Ok?
        && |r.value.0| == sequenceLength
        && r.value.0 + [r.value.1] == encodedText[idx..idx + sequenceLength + 1]
    {
      var xSeq := PySlice(encodedText, idx, idx + sequenceLength);
      match PyIndex(encodedText, idx + sequenceLength)
      case Ok(ySeq) =>
        Ok((xSeq, ySeq))
      case Err(e) => Err(e)
    }
  }

  /** `get_vocab_size`: the number of indices in use. */
  function GetVocabSize(d: TextDataset): (n: nat)
    reads d
    requires d.Valid()
    ensures forall i :: i in d.intToWord <==> 0 <= i < n
  {
    IntToWordPositions(d.vocab);
    |d.vocab|
  }

  /** Every start from 0 below `__len__` gives a full window, and no later start does. */
  lemma LengthCountsWindows(d: TextDataset, idx: int)
    requires d.sequenceLength >= 0 && idx >= 0
    ensures d.GetItem(idx).Ok? <==> idx < d.Length()
  {
  }

  /** Decoding a window of a built dataset gives consecutive vocabulary words of the text. */
  lemma WindowWords(d: TextDataset, idx: int)
    requires d.Valid() && d.sequenceLength >= 0 && 0 <= idx < d.Length()
    ensures d.GetItem(idx).Ok?
    ensures forall k :: 0 <= k < |d.GetItem(idx).value.0| ==> d.GetItem(idx).value.0[k] in d.intToWord
    ensures Decode(d.GetItem(idx).value.0, d.intToWord)
      == Known(d.words, d.wordToInt)[idx..idx + d.sequenceLength]
  {
    var e := d.encodedText;
    var x := d.GetItem(idx).value.0;
    assert x == e[idx..idx + d.sequenceLength];
    DecodeRun(d.words, d.vocab, d.wordToInt, d.intToWord, e, idx, idx + d.sequenceLength);
  }

  /** A run of codes decodes to the same run of in-vocabulary words. */
  lemma DecodeRun(words: seq<string>, v: seq<string>, m: map<string, nat>, inv: map<nat, string>, e: seq<nat>, a: int, b: int)
    requires m == WordToInt(v) && inv == IntToWord(v) && e == Encode(words, m)
    requires 0 <= a <= b <= |e|
    ensures forall k :: a <= k < b ==> e[k] in inv
    ensures Decode(e[a..b], inv) == Known(words, m)[a..b]
  {
    DecodeEncode(words, v);
    DecodeSlice(e, inv, a, b);
  }

  lemma DecodeSlice(e: seq<nat>, inv: map<nat, string>, a: int, b: int)
    requires forall k :: 0 <= k < |e| ==> e[k] in inv
    requires 0 <= a <= b <= |e|
    ensures Decode(e[a..b], inv) == Decode(e, inv)[a..b]
  {
    var l := Decode(e[a..b], inv);
    var r := Decode(e, inv)[a..b];
    assert forall k :: 0 <= k < b - a ==> l[k] == inv[e[a + k]] == r[k];
  }
}
