/**
 * The answer key being edited in the question-bank editor. Its JavaScript
 * value is a label string for `pilihan_ganda`, an array of labels for
 * `pilihan_majemuk` and free text for `isian`.
 */
module AnswerKeys {
  import opened Seqs

  /** The three question types the editor offers. */
  const PilihanGanda: string := "pilihan_ganda"      // single choice
  const PilihanMajemuk: string := "pilihan_majemuk"  // multiple choice
  const Isian: string := "isian"                     // short free text

  /** `correctAnswer`: a string, or an array of option labels. */
  datatype Key = Text(text: string) | Labels(labels: seq<string>)

  /** `handleTypeChange`: the key the editor resets to on switching to `questionType`; any other type keeps it. */
  function DefaultKey(questionType: string, current: Key): (k: Key)
    ensures questionType == PilihanGanda ==> k == Text("A")
    ensures questionType == PilihanMajemuk ==> k == Labels([])
    ensures questionType == Isian ==> k == Text("")
    ensures questionType !in {PilihanGanda, PilihanMajemuk, Isian} ==> k == current
  {
    if questionType == PilihanGanda then Text("A")
    else if questionType == PilihanMajemuk then Labels([])
    else if questionType == Isian then Text("")
    else current
  }

  /** `Array.isArray(correctAnswer) ? [...correctAnswer] : []` */
  function CurrentLabels(k: Key): (labels: seq<string>)
    ensures k.Labels? ==> labels == k.labels
    ensures !k.Labels? ==> labels == []
  {
    if k.Labels? then k.labels else []
  }

  function IsNot(opt: string): string -> bool {
    (x: string) => x != opt
  }

  /**
   * The label list after toggling `opt`: a present label is removed wherever it
   * occurs, the others keeping their order and their number of occurrences; an
   * absent one is appended.
   */
  function Toggled(current: seq<string>, opt: string): (r: seq<string>)
    ensures forall x :: x in r <==> (x in current) != (x == opt)
    ensures opt in current ==> IsSubseq(r, current) && |r| < |current|
    ensures opt in current ==> forall x :: multiset(r)[x] == if x == opt then 0 else multiset(current)[x]
    ensures opt !in current ==> r == current + [opt]
  {
    if opt in current then
      FilterIsSubseq(IsNot(opt), current);
      FilterShrinks(IsNot(opt), current, opt);
      FilterMultiset(IsNot(opt), current);
      Filter(IsNot(opt), current)
    else current + [opt]
  }

  /** `toggleMajemukAnswer`: copies the key (a non-array counts as empty), then filters or pushes. */
  method ToggleMajemukAnswer(correctAnswer: Key, opt: string) returns (current: seq<string>)
    ensures current == Toggled(CurrentLabels(correctAnswer), opt)
    ensures !correctAnswer.Labels? ==> current == [opt]
  {
    current := if correctAnswer.Labels? then correctAnswer.labels else [];
    if opt in current {
      current := Filter(IsNot(opt), current);
    } else {
      current := current + [opt];
    }
  }

  /**
   * Toggling the same label twice gives back the same set of labels; when the
   * label was absent, it gives back exactly the same list.
   */
  lemma {:induction false} ToggleTwice(current: seq<string>, opt: string)
    ensures forall x :: x in Toggled(Toggled(current, opt), opt) <==> x in current
    ensures opt !in current ==> Toggled(Toggled(current, opt), opt) == current
  {
    if opt !in current {
      FilterAppend(IsNot(opt), current, [opt]);
      FilterKeepsAll(IsNot(opt), current);
      assert Filter(IsNot(opt), [opt]) == [] by {
        FilterCons(IsNot(opt), opt, []);
      }
    }
  }
}
