/**
 * Text preprocessing for the intent classifier: the runtime normaliser
 * `preprocess_text` and the grouping loop of `preprocess_data`, which
 * flattens the intents file into parallel sentence/label lists and a
 * tag-to-responses table.
 */
module TextPreprocessor {

  /** One record of the intents file: a tag, its example utterances and its candidate replies. */
  datatype Intent = Intent(tag: string, patterns: seq<string>, responses: seq<string>)

  // ---------------------------------------------------------------------
  // preprocess_text: lower-case, then strip surrounding whitespace
  // ---------------------------------------------------------------------

  predicate IsUpper(c: char) { 'A' <= c <= 'Z' }

  /** Python's `str.isspace` on ASCII: space, tab, LF, VT, FF, CR and the separators 0x1C-0x1F. */
  predicate IsSpace(c: char) { c == ' ' || 9 <= c as int <= 13 || 28 <= c as int <= 31 }

  predicate NoUpper(s: string) { forall i :: 0 <= i < |s| ==> !IsUpper(s[i]) }

  /** No whitespace at either end. */
  predicate IsStripped(s: string) { s == [] || (!IsSpace(s[0]) && !IsSpace(s[|s| - 1])) }

  function LowerChar(c: char): (d: char)
    ensures !IsUpper(d)
    ensures IsSpace(d) == IsSpace(c)
    ensures !IsUpper(c) ==> d == c
    ensures IsUpper(c) ==> 'a' <= d <= 'z' && d as int - 'a' as int == c as int - 'A' as int
  {
    if IsUpper(c) then (c as int + 32) as char else c
  }

  /**
   * `str.lower` on ASCII letters: every character keeps its place, an upper-case
   * letter becomes the same letter in lower case, and every other character is kept.
   */
  function Lower(s: string): (r: string)
    ensures |r| == |s| && NoUpper(r)
    ensures forall i :: 0 <= i < |s| && !IsUpper(s[i]) ==> r[i] == s[i]
    ensures forall i :: 0 <= i < |s| && IsUpper(s[i]) ==> r[i] as int == s[i] as int + 32
    ensures forall i :: 0 <= i < |s| ==> IsSpace(r[i]) == IsSpace(s[i])
    ensures NoUpper(s) ==> r == s
  {
    seq(|s|, i requires 0 <= i < |s| => LowerChar(s[i]))
  }

  /** `str.lstrip`: drops the longest whitespace prefix and nothing else. */
  function TrimLeft(s: string): (r: string)
    ensures |r| <= |s| && r == s[|s| - |r|..]
    ensures forall i :: 0 <= i < |s| - |r| ==> IsSpace(s[i])
    ensures r == [] || !IsSpace(r[0])
  {
    if |s| > 0 && IsSpace(s[0]) then TrimLeft(s[1..]) else s
  }

  /** `str.rstrip`: drops the longest whitespace suffix and nothing else. */
  function TrimRight(s: string): (r: string)
    ensures |r| <= |s| && r == s[..|r|]
    ensures forall i :: |r| <= i < |s| ==> IsSpace(s[i])
    ensures r == [] || !IsSpace(r[|r| - 1])
  {
    if |s| > 0 && IsSpace(s[|s| - 1]) then TrimRight(s[..|s| - 1]) else s
  }

  /** `r` is `s[lo..lo + |r|]` and everything of `s` outside that slice is whitespace. */
  predicate CutsOnlySpace(s: string, lo: int, r: string)
  {
    && 0 <= lo <= |s| - |r|
    && r == s[lo..lo + |r|]
    && (forall i :: 0 <= i < lo ==> IsSpace(s[i]))
    && (forall i :: lo + |r| <= i < |s| ==> IsSpace(s[i]))
  }

  /** `str.strip`: the result is a slice of `s` with only whitespace cut from either end. */
  function Strip(s: string): (r: string)
    ensures IsStripped(r)
    ensures exists lo :: CutsOnlySpace(s, lo, r)
    ensures NoUpper(s) ==> NoUpper(r)
  {
    var t := TrimLeft(s);
    var r := TrimRight(t);
    assert CutsOnlySpace(s, |s| - |t|, r);
    r
  }

  /** preprocess_text: `text.lower().strip()`. */
  function PreprocessText(text: string): (r: string)
    ensures NoUpper(r)
    ensures IsStripped(r)
    ensures |r| <= |text|
    ensures exists lo :: CutsOnlySpace(Lower(text), lo, r)
  {
    Strip(Lower(text))
  }

  /** Lower-casing commutes with taking a slice. */
  lemma LowerSlice(s: string, lo: int, hi: int)
    requires 0 <= lo <= hi <= |s|
    ensures Lower(s)[lo..hi] == Lower(s[lo..hi])
  {
  }

  /** A string with no surrounding whitespace is left alone by `strip`. */
  lemma {:induction false} StripFixesStripped(s: string)
    requires IsStripped(s)
    ensures Strip(s) == s
  {
    assert TrimLeft(s) == s;
    assert TrimRight(s) == s;
  }

  /** Normalising twice is the same as normalising once. */
  lemma {:induction false} PreprocessTextIdempotent(text: string)
    ensures PreprocessText(PreprocessText(text)) == PreprocessText(text)
  {
    var r := PreprocessText(text);
    assert Lower(r) == r;
    StripFixesStripped(r);
  }

  // ---------------------------------------------------------------------
  // preprocess_data: the sentence / label / responses grouping loop
  // ---------------------------------------------------------------------

  /** `n` copies of `t`. */
  function Repeat(t: string, n: nat): (r: seq<string>)
    ensures |r| == n && forall i :: 0 <= i < n ==> r[i] == t
  {
    seq(n, _ => t)
  }

  /** All patterns, intent order then pattern order. */
  function Sentences(intents: seq<Intent>): seq<string>
  {
    if intents == [] then []
    else Sentences(intents[..|intents| - 1]) + intents[|intents| - 1].patterns
  }

  /** One copy of an intent's tag per pattern of that intent, in the same order as `Sentences`. */
  function Labels(intents: seq<Intent>): seq<string>
  {
    if intents == [] then []
    else
      var last := intents[|intents| - 1];
      Labels(intents[..|intents| - 1]) + Repeat(last.tag, |last.patterns|)
  }

  /** The responses dictionary: written once per intent, so a later duplicate tag overwrites. */
  function ResponseTable(intents: seq<Intent>): map<string, seq<string>>
  {
    if intents == [] then map[]
    else
      var last := intents[|intents| - 1];
      ResponseTable(intents[..|intents| - 1])[last.tag := last.responses]
  }

  /** Total number of patterns across all intents. */
  function PatternCount(intents: seq<Intent>): nat
  {
    if intents == [] then 0 else |intents[0].patterns| + PatternCount(intents[1..])
  }

  lemma {:induction false} PatternCountSnoc(intents: seq<Intent>, x: Intent)
    ensures PatternCount(intents + [x]) == PatternCount(intents) + |x.patterns|
  {
    if intents != [] {
      assert (intents + [x])[1..] == intents[1..] + [x];
      PatternCountSnoc(intents[1..], x);
    }
  }

  /** `sentences` and `labels` are parallel lists as long as the total pattern count. */
  lemma {:induction false} SentencesLabelsAligned(intents: seq<Intent>)
    ensures |Sentences(intents)| == |Labels(intents)| == PatternCount(intents)
  {
    if intents != [] {
      var init := intents[..|intents| - 1];
      SentencesLabelsAligned(init);
      PatternCountSnoc(init, intents[|intents| - 1]);
      assert init + [intents[|intents| - 1]] == intents;
    }
  }

  /**
   * Pattern `p` of intent `k` sits at position (patterns of intents before k) + p,
   * and its label there is intent k's tag.
   */
  lemma {:induction false} PatternPosition(intents: seq<Intent>, k: nat, p: nat)
    requires k < |intents| && p < |intents[k].patterns|
    ensures PatternCount(intents[..k]) + p < |Sentences(intents)| == |Labels(intents)|
    ensures Sentences(intents)[PatternCount(intents[..k]) + p] == intents[k].patterns[p]
    ensures Labels(intents)[PatternCount(intents[..k]) + p] == intents[k].tag
  {
    var n := |intents|;
    var init := intents[..n - 1];
    SentencesLabelsAligned(init);
    SentencesLabelsAligned(intents);
    if k == n - 1 {
      assert intents[..k] == init;
    } else {
      assert init[..k] == intents[..k];
      PatternPosition(init, k, p);
    }
  }

  /** Every tag gets a key, including tags of intents with no patterns, and no other key exists. */
  lemma {:induction false} ResponseTableKeys(intents: seq<Intent>)
    ensures forall t :: t in ResponseTable(intents) <==> exists k :: 0 <= k < |intents| && intents[k].tag == t
  {
    if intents != [] {
      var init := intents[..|intents| - 1];
      ResponseTableKeys(init);
      forall t | t in ResponseTable(intents)
        ensures exists k :: 0 <= k < |intents| && intents[k].tag == t
      {
        if t != intents[|intents| - 1].tag {
          assert t in ResponseTable(init);
          var k :| 0 <= k < |init| && init[k].tag == t;
          assert intents[k].tag == t;
        }
      }
    }
  }

  /** For a tag, the table holds the responses of the LAST intent carrying it. */
  lemma {:induction false} LaterDuplicateTagWins(intents: seq<Intent>, k: nat)
    requires k < |intents|
    requires forall j :: k < j < |intents| ==> intents[j].tag != intents[k].tag
    ensures intents[k].tag in ResponseTable(intents)
    ensures ResponseTable(intents)[intents[k].tag] == intents[k].responses
  {
    var n := |intents|;
    if k < n - 1 {
      var init := intents[..n - 1];
      LaterDuplicateTagWins(init, k);
    }
  }

  /**
   * The grouping loop of preprocess_data (the tokenizer and label encoder that follow it are
   * not modelled): appends each pattern and its tag, then writes the intent's responses under
   * its tag.
   */
  method PreprocessData(intents: seq<Intent>)
    returns (sentences: seq<string>, labels: seq<string>, responses: map<string, seq<string>>)
    ensures sentences == Sentences(intents)
    ensures labels == Labels(intents)
    ensures responses == ResponseTable(intents)
    ensures |sentences| == |labels| == PatternCount(intents)
  {
    sentences, labels, responses := [], [], map[];
    for k := 0 to |intents|
      invariant sentences == Sentences(intents[..k])
      invariant labels == Labels(intents[..k])
      invariant responses == ResponseTable(intents[..k])
    {
      var intent := intents[k];
      assert intents[..k + 1][..k] == intents[..k];
      for p := 0 to |intent.patterns|
        invariant sentences == Sentences(intents[..k]) + intent.patterns[..p]
        invariant labels == Labels(intents[..k]) + Repeat(intent.tag, p)
      {
        sentences := sentences + [intent.patterns[p]];
        labels := labels + [intent.tag];
        assert intent.patterns[..p + 1] == intent.patterns[..p] + [intent.patterns[p]];
        assert Repeat(intent.tag, p + 1) == Repeat(intent.tag, p) + [intent.tag];
      }
      assert intent.patterns[..|intent.patterns|] == intent.patterns;
      responses := responses[intent.tag := intent.responses];
    }
    assert intents[..|intents|] == intents;
    SentencesLabelsAligned(intents);
  }
}
