/**
 * The word-to-definition matching widget: a selected word, a selected
 * definition, and the answer array (slot = word index, value = definition
 * index, undefined when unmatched) that each click rewrites.
 */
module VocabularyMatch {
  import opened Js

  /**
   * `newAnswer[i] = v` on a copy: inside the array only slot i changes;
   * past the end the array grows, the gap reading as undefined.
   */
  function SetSlot(answer: seq<Option<nat>>, i: nat, v: Option<nat>): (r: seq<Option<nat>>)
    ensures |r| == if i < |answer| then |answer| else i + 1
    ensures r[i] == v
    ensures forall k :: 0 <= k < |answer| && k != i ==> r[k] == answer[k]
    ensures forall k :: |answer| <= k < i ==> r[k] == None
  {
    if i < |answer| then answer[i := v] else answer + seq(i - |answer|, _ => None) + [v]
  }

  /** `answer.filter((a) => a !== undefined).length`: the number of matched words. */
  function MatchCount(answer: seq<Option<nat>>): (c: nat)
    ensures c <= |answer|
  {
    if answer == [] then 0
    else MatchCount(answer[..|answer| - 1]) + if answer[|answer| - 1].Some? then 1 else 0
  }

  /** No word is matched exactly when every slot is undefined. */
  lemma {:induction false} NoMatchesMeansEmpty(answer: seq<Option<nat>>)
    ensures MatchCount(answer) == 0 <==> forall k :: 0 <= k < |answer| ==> answer[k] == None
  {
    if answer != [] {
      var init := answer[..|answer| - 1];
      NoMatchesMeansEmpty(init);
      assert forall k :: 0 <= k < |init| ==> init[k] == answer[k];
    }
  }

  /** `answer.includes(d)`. */
  predicate Used(answer: seq<Option<nat>>, d: nat) {
    Some(d) in answer
  }

  lemma {:induction false} MatchCountAppend(a: seq<Option<nat>>, b: seq<Option<nat>>)
    ensures MatchCount(a + b) == MatchCount(a) + MatchCount(b)
  {
    if b != [] {
      assert (a + b)[..|a + b| - 1] == a + b[..|b| - 1];
      MatchCountAppend(a, b[..|b| - 1]);
    } else {
      assert a + b == a;
    }
  }

  lemma {:induction false} MatchCountUpdate(a: seq<Option<nat>>, i: nat, v: Option<nat>)
    requires i < |a|
    ensures MatchCount(a[i := v]) == MatchCount(a) - (if a[i].Some? then 1 else 0) + (if v.Some? then 1 else 0)
  {
    var last := |a| - 1;
    if i == last {
      assert a[i := v][..last] == a[..last];
    } else {
      assert a[i := v][..last] == a[..last][i := v];
      MatchCountUpdate(a[..last], i, v);
    }
  }

  lemma {:induction false} NoneRunCountsZero(n: nat)
    ensures MatchCount(seq(n, _ => None)) == 0
  {
    NoMatchesMeansEmpty(seq(n, _ => None));
  }

  /** Matching a word adds one match unless it was matched already; nothing else is counted twice. */
  lemma MatchAddsAtMostOne(answer: seq<Option<nat>>, w: nat, d: nat)
    ensures MatchCount(SetSlot(answer, w, Some(d))) == MatchCount(answer) + (if w < |answer| && answer[w].Some? then 0 else 1)
  {
    if w < |answer| {
      MatchCountUpdate(answer, w, Some(d));
    } else {
      GrowAddsOne(answer, w, d);
    }
  }

  lemma GrowAddsOne(answer: seq<Option<nat>>, w: nat, d: nat)
    requires w >= |answer|
    ensures MatchCount(SetSlot(answer, w, Some(d))) == MatchCount(answer) + 1
  {
    var gap: seq<Option<nat>> := seq(w - |answer|, _ => None);
    var one: seq<Option<nat>> := [Some(d)];
    assert SetSlot(answer, w, Some(d)) == (answer + gap) + one;
    MatchCountAppend(answer + gap, one);
    MatchCountAppend(answer, gap);
    NoneRunCountsZero(w - |answer|);
    assert one[..0] == [];
  }

  /** Clearing a matched word removes exactly one match. */
  lemma ClearRemovesOne(answer: seq<Option<nat>>, w: nat)
    requires w < |answer| && answer[w].Some?
    ensures MatchCount(answer[w := None]) == MatchCount(answer) - 1
  {
    MatchCountUpdate(answer, w, None);
  }

  /** Nothing stops two words from taking the same definition: both then count as matches. */
  lemma SharedDefinitionAllowed(d: nat)
    ensures var a := SetSlot(SetSlot([], 0, Some(d)), 1, Some(d));
      a == [Some(d), Some(d)] && Used(a, d) && MatchCount(a) == 2
  {
    var a := SetSlot(SetSlot([], 0, Some(d)), 1, Some(d));
    var one: seq<Option<nat>> := [Some(d)];
    assert a == [Some(d), Some(d)];
    assert a[..1] == one;
    assert one[..0] == [];
  }

  /** The widget's state: the two selections and the answer array it reports through `onChange`. */
  class Widget {
    /** `question.words.length`. */
    const wordCount: nat
    var selectedWord: Option<nat>
    var selectedDefinition: Option<nat>
    /** The answer as last reported; the parent passes it straight back in. */
    var answer: seq<Option<nat>>

    /** A fresh widget: nothing selected, the given answer (by default empty). */
    constructor(wordCount: nat, answer: seq<Option<nat>>)
      ensures this.wordCount == wordCount && this.answer == answer
      ensures selectedWord == None && selectedDefinition == None
    {
      this.wordCount := wordCount;
      this.answer := answer;
      selectedWord := None;
      selectedDefinition := None;
    }

    /**
     * `handleWordClick`: a matched word is unmatched (selections untouched);
     * an unmatched word becomes the selected word and the selected
     * definition is cleared (answer untouched).
     */
    method HandleWordClick(index: nat)
      modifies this`answer, this`selectedWord, this`selectedDefinition
      ensures index < |old(answer)| && old(answer)[index].Some? ==>
        answer == old(answer)[index := None] && selectedWord == old(selectedWord) && selectedDefinition == old(selectedDefinition)
      ensures !(index < |old(answer)| && old(answer)[index].Some?) ==>
        answer == old(answer) && selectedWord == Some(index) && selectedDefinition == None
    {
      if index < |answer| && answer[index].Some? {
        answer := answer[index := None];
        return;
      }
      selectedWord := Some(index);
      selectedDefinition := None;
    }

    /**
     * `handleDefinitionClick`: with a word selected, that word's slot takes
     * the definition and both selections clear; otherwise the definition is
     * only remembered.
     */
    method HandleDefinitionClick(index: nat)
      modifies this`answer, this`selectedWord, this`selectedDefinition
      ensures old(selectedWord).Some? ==>
        answer == SetSlot(old(answer), old(selectedWord).value, Some(index)) && selectedWord == None && selectedDefinition == None
      ensures old(selectedWord).None? ==>
        answer == old(answer) && selectedWord == None && selectedDefinition == Some(index)
    {
      if selectedWord.Some? {
        answer := SetSlot(answer, selectedWord.value, Some(index));
        selectedWord := None;
        selectedDefinition := None;
      } else {
        selectedDefinition := Some(index);
        selectedWord := None;
      }
    }

    /** `clearMatches`: one undefined slot per word, nothing selected. */
    method ClearMatches()
      modifies this`answer, this`selectedWord, this`selectedDefinition
      ensures |answer| == wordCount && MatchCount(answer) == 0
      ensures forall k :: 0 <= k < |answer| ==> answer[k] == None
      ensures selectedWord == None && selectedDefinition == None
    {
      answer := seq(wordCount, _ => None);
      NoneRunCountsZero(wordCount);
      selectedWord := None;
      selectedDefinition := None;
    }

    /** `isDefinitionUsed`: some word's slot holds the definition. */
    function IsDefinitionUsed(defIndex: nat): (used: bool)
      reads this
      ensures used <==> exists k :: 0 <= k < |answer| && answer[k] == Some(defIndex)
    {
      Used(answer, defIndex)
    }
  }
}
