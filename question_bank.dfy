/**
 * The question-bank editor: validation of the form, construction of the
 * question record, insert-or-replace by id, delete by id, and the form
 * transitions around them. The bank maps a subtest id to its question list.
 */
module QuestionBank {
  import opened Wrappers
  import opened Seqs
  import opened Text
  import opened AnswerKeys

  /** A stored question. */
  datatype Question = Question(
    id: string,
    questionType: string,
    question: string,
    image: string,
    options: seq<string>,
    correct: Key)

  /**
   * The editor form state. `editingId` is the id of the question being edited;
   * the empty string stands for JavaScript's `null`. Both are falsy, and
   * `editingId` is compared with a question id only once it has been found
   * truthy, so the two are never told apart.
   */
  datatype Editor = Editor(
    selectedSubtest: string,
    questionType: string,
    questionText: string,
    questionImage: string,
    options: seq<string>,
    correctAnswer: Key,
    editingId: string)

  type Bank = map<string, seq<Question>>

  /** The four alerts that abort a save. */
  datatype SaveError = MissingQuestion | MissingOption | MissingMultiKey | MissingIsianKey

  /** The outcome of pressing save: the new bank and form, and the alert shown if the save was refused. */
  datatype Saved = Saved(bank: Bank, editor: Editor, error: Option<SaveError>)

  /** `bankSoal[subtest] || []` */
  function Lookup(bank: Bank, subtest: string): (qs: seq<Question>)
    ensures subtest in bank ==> qs == bank[subtest]
    ensures subtest !in bank ==> qs == []
  {
    if subtest in bank then bank[subtest] else []
  }

  /** `correctAnswer.toString()` */
  function KeyString(k: Key): (s: string)
    ensures k.Text? ==> s == k.text
    ensures k.Labels? ==> s == Join(k.labels)
  {
    match k
    case Text(s) => s
    case Labels(ls) => Join(ls)
  }

  predicate NoBlankOption(options: seq<string>) {
    forall i :: 0 <= i < |options| ==> !IsBlank(options[i])
  }

  /**
   * `!correctAnswer || correctAnswer.toString().trim() === ''`: a text key is
   * missing when blank; an array key (always truthy) when it has no labels or a
   * single blank one, since the commas of a longer array are not whitespace.
   */
  function IsianKeyMissing(k: Key): (missing: bool)
    ensures missing <==> IsBlank(KeyString(k))
    ensures missing <==> match k
                         case Text(s) => IsBlank(s)
                         case Labels(ls) => ls == [] || (|ls| == 1 && IsBlank(ls[0]))
  {
    match k
    case Text(s) => s == "" || Trim(s) == ""
    case Labels(ls) =>
      JoinBlank(ls);
      Trim(Join(ls)) == ""
  }

  /** The checks of `addOrUpdate`, in the order the source makes them; `None` lets the save proceed. */
  function Validate(e: Editor): (err: Option<SaveError>)
    ensures err == Some(MissingQuestion) <==> IsBlank(e.questionText)
    ensures err == Some(MissingOption) <==>
              !IsBlank(e.questionText) && e.questionType != Isian && !NoBlankOption(e.options)
    ensures err == Some(MissingMultiKey) <==>
              !IsBlank(e.questionText) && e.questionType == PilihanMajemuk && NoBlankOption(e.options)
              && (!e.correctAnswer.Labels? || e.correctAnswer.labels == [])
    ensures err == Some(MissingIsianKey) <==>
              !IsBlank(e.questionText) && e.questionType == Isian && IsBlank(KeyString(e.correctAnswer))
    ensures err == None <==>
              && !IsBlank(e.questionText)
              && (e.questionType != Isian ==> NoBlankOption(e.options))
              && (e.questionType == PilihanMajemuk ==> e.correctAnswer.Labels? && e.correctAnswer.labels != [])
              && (e.questionType == Isian ==> !IsBlank(KeyString(e.correctAnswer)))
  {
    if Trim(e.questionText) == "" then Some(MissingQuestion)
    else if e.questionType != Isian && exists i :: 0 <= i < |e.options| && Trim(e.options[i]) == "" then
      Some(MissingOption)
    else if e.questionType == PilihanMajemuk && (!e.correctAnswer.Labels? || |e.correctAnswer.labels| == 0) then
      Some(MissingMultiKey)
    else if e.questionType == Isian && IsianKeyMissing(e.correctAnswer) then
      Some(MissingIsianKey)
    else None
  }

  /** `newQuestion`: the edited id, or the clock reading `nowId` for a new question; an `isian` question keeps no options. */
  function NewQuestion(e: Editor, nowId: string): (q: Question)
    ensures q.id == if e.editingId != "" then e.editingId else nowId
    ensures q.questionType == Isian ==> q.options == []
    ensures q.questionType != Isian ==> q.options == e.options
    ensures q.questionType == e.questionType && q.question == e.questionText
    ensures q.image == e.questionImage && q.correct == e.correctAnswer
  {
    Question(
      if e.editingId != "" then e.editingId else nowId,
      e.questionType,
      e.questionText,
      e.questionImage,
      if e.questionType == Isian then [] else e.options,
      e.correctAnswer)
  }

  /** `currentQuestions.map(q => q.id === id ? newQuestion : q)` */
  function Replace(qs: seq<Question>, id: string, q: Question): (r: seq<Question>)
    ensures |r| == |qs|
    ensures forall i :: 0 <= i < |qs| ==> r[i] == (if qs[i].id == id then q else qs[i])
    ensures forall x :: x in r ==> x == q || (x in qs && x.id != id)
    ensures (forall x :: x in qs ==> x.id != id) ==> r == qs
  {
    var r := seq(|qs|, i requires 0 <= i < |qs| => if qs[i].id == id then q else qs[i]);
    assert forall i :: 0 <= i < |qs| ==> qs[i] in qs;
    r
  }

  /**
   * The list after saving `q`: when editing, every entry with the edited id is
   * replaced in place and nothing else changes; otherwise `q` is appended.
   */
  function Upsert(qs: seq<Question>, editingId: string, q: Question): (r: seq<Question>)
    ensures editingId == "" ==> r == qs + [q]
    ensures editingId != "" ==> |r| == |qs|
    ensures editingId != "" ==> forall i :: 0 <= i < |qs| ==>
              r[i] == (if qs[i].id == editingId then q else qs[i])
    ensures editingId != "" ==> forall x :: x in r ==> x == q || (x in qs && x.id != editingId)
  {
    if editingId != "" then Replace(qs, editingId, q) else qs + [q]
  }

  /** `handleTypeChange`: the new type and its default key; the rest of the form is kept. */
  function HandleTypeChange(e: Editor, questionType: string): (r: Editor)
    ensures r.questionType == questionType
    ensures r.correctAnswer == DefaultKey(questionType, e.correctAnswer)
    ensures r.(questionType := e.questionType, correctAnswer := e.correctAnswer) == e
  {
    e.(questionType := questionType, correctAnswer := DefaultKey(questionType, e.correctAnswer))
  }

  /** `resetForm`: an empty single-choice form, not editing anything, on the same subtest. */
  function ResetForm(e: Editor): (r: Editor)
    ensures r.selectedSubtest == e.selectedSubtest && r.editingId == ""
    ensures r.questionText == "" && r.questionImage == ""
    ensures r.questionType == PilihanGanda && r.correctAnswer == Text("A")
    ensures |r.options| == 5 && forall i :: 0 <= i < 5 ==> r.options[i] == ""
    ensures Validate(r) == Some(MissingQuestion)
  {
    HandleTypeChange(
      e.(questionText := "", questionImage := "", options := ["", "", "", "", ""], editingId := ""),
      PilihanGanda)
  }

  /** `loadSoalForEdit`: the form filled from a stored question. */
  function LoadForEdit(q: Question, e: Editor): (r: Editor)
    ensures r.editingId == q.id && r.selectedSubtest == e.selectedSubtest
    ensures r.questionType == if q.questionType == "" then PilihanGanda else q.questionType
    ensures r.questionText == q.question && r.questionImage == q.image && r.correctAnswer == q.correct
    ensures r.options == if q.questionType == Isian then ["", "", "", "", ""] else q.options
  {
    e.(questionText := q.question,
       questionImage := q.image,
       questionType := if q.questionType == "" then PilihanGanda else q.questionType,
       options := if q.questionType == Isian then ["", "", "", "", ""] else q.options,
       correctAnswer := q.correct,
       editingId := q.id)
  }

  /**
   * `addOrUpdate` followed by `saveSoal` and `resetForm`. A refused save leaves
   * both the bank and the form as they were; an accepted one writes the
   * upserted list back under the selected subtest and resets the form.
   */
  function AddOrUpdate(bank: Bank, e: Editor, nowId: string): (out: Saved)
    ensures out.error == Validate(e)
    ensures out.error.Some? ==> out.bank == bank && out.editor == e
    ensures out.error.None? ==> out.editor == ResetForm(e)
    ensures out.error.None? ==>
              out.bank == bank[e.selectedSubtest := Upsert(Lookup(bank, e.selectedSubtest), e.editingId, NewQuestion(e, nowId))]
  {
    var err := Validate(e);
    if err.Some? then Saved(bank, e, err)
    else
      var updated := Upsert(Lookup(bank, e.selectedSubtest), e.editingId, NewQuestion(e, nowId));
      Saved(bank[e.selectedSubtest := updated], ResetForm(e), None)
  }

  function IdIsNot(id: string): Question -> bool {
    (q: Question) => q.id != id
  }

  /**
   * `deleteSoal`: once confirmed, the selected subtest keeps exactly its entries
   * whose id differs from `id`; every other subtest is untouched.
   */
  function DeleteSoal(bank: Bank, subtest: string, id: string, confirmed: bool): (r: Bank)
    ensures !confirmed ==> r == bank
    ensures confirmed ==> subtest in r && forall x :: x in r[subtest] <==> x in Lookup(bank, subtest) && x.id != id
    ensures forall s :: s != subtest ==> (s in r <==> s in bank) && (s in bank ==> r[s] == bank[s])
  {
    if confirmed then bank[subtest := Filter(IdIsNot(id), Lookup(bank, subtest))] else bank
  }

  /** Delete keeps the remaining questions in order and each as often as before. */
  lemma {:induction false} DeleteKeepsRest(bank: Bank, subtest: string, id: string)
    ensures IsSubseq(DeleteSoal(bank, subtest, id, true)[subtest], Lookup(bank, subtest))
    ensures forall x :: multiset(DeleteSoal(bank, subtest, id, true)[subtest])[x] ==
              if x.id != id then multiset(Lookup(bank, subtest))[x] else 0
  {
    FilterIsSubseq(IdIsNot(id), Lookup(bank, subtest));
    FilterMultiset(IdIsNot(id), Lookup(bank, subtest));
  }

  /** Deleting the same id twice is deleting it once. */
  lemma {:induction false} DeleteIdempotent(bank: Bank, subtest: string, id: string)
    ensures DeleteSoal(DeleteSoal(bank, subtest, id, true), subtest, id, true) == DeleteSoal(bank, subtest, id, true)
  {
    FilterIdempotent(IdIsNot(id), Lookup(bank, subtest));
  }

  /** A saved new question with a fresh id is undone by deleting that id. */
  lemma {:induction false} AddThenDelete(bank: Bank, e: Editor, nowId: string)
    requires e.editingId == "" && Validate(e) == None
    requires forall x :: x in Lookup(bank, e.selectedSubtest) ==> x.id != nowId
    ensures DeleteSoal(AddOrUpdate(bank, e, nowId).bank, e.selectedSubtest, nowId, true)
            == bank[e.selectedSubtest := Lookup(bank, e.selectedSubtest)]
  {
    var sel, q := e.selectedSubtest, NewQuestion(e, nowId);
    assert AddOrUpdate(bank, e, nowId).bank == bank[sel := Lookup(bank, sel) + [q]];
    DeleteAfterAppend(bank, sel, q);
  }

  lemma {:induction false} DeleteAfterAppend(bank: Bank, sel: string, q: Question)
    requires forall x :: x in Lookup(bank, sel) ==> x.id != q.id
    ensures DeleteSoal(bank[sel := Lookup(bank, sel) + [q]], sel, q.id, true) == bank[sel := Lookup(bank, sel)]
  {
    var qs := Lookup(bank, sel);
    var added := bank[sel := qs + [q]];
    assert Lookup(added, sel) == qs + [q];
    RemoveAppended(qs, q);
    assert DeleteSoal(added, sel, q.id, true) == added[sel := qs];
  }

  lemma {:induction false} RemoveAppended(qs: seq<Question>, q: Question)
    requires forall x :: x in qs ==> x.id != q.id
    ensures Filter(IdIsNot(q.id), qs + [q]) == qs
  {
    var p := IdIsNot(q.id);
    FilterAppend(p, qs, [q]);
    FilterKeepsAll(p, qs);
    FilterCons(p, q, []);
  }

  /** Saving while editing an id that is not in the selected subtest changes no question, although the save is accepted. */
  lemma {:induction false} EditOfMissingIdChangesNothing(bank: Bank, e: Editor, nowId: string)
    requires e.editingId != "" && Validate(e) == None
    requires forall x :: x in Lookup(bank, e.selectedSubtest) ==> x.id != e.editingId
    ensures AddOrUpdate(bank, e, nowId).error == None
    ensures AddOrUpdate(bank, e, nowId).bank == bank[e.selectedSubtest := Lookup(bank, e.selectedSubtest)]
  {
  }

  /**
   * Loading a stored question into the editor and saving it unchanged leaves
   * the bank as it was: either the save is refused, or the question replaces
   * itself. This needs the id to be non-empty and unique in the list, the type
   * to be set, and an `isian` question to have no options, as the editor
   * stores them.
   */
  lemma {:induction false} ReSaveIsNoOp(bank: Bank, q: Question, e: Editor, nowId: string)
    requires q in Lookup(bank, e.selectedSubtest)
    requires q.id != "" && q.questionType != ""
    requires q.questionType == Isian ==> q.options == []
    requires forall x :: x in Lookup(bank, e.selectedSubtest) && x.id == q.id ==> x == q
    ensures AddOrUpdate(bank, LoadForEdit(q, e), nowId).bank == bank
  {
    var f, sel := LoadForEdit(q, e), e.selectedSubtest;
    var qs := bank[sel];
    LoadedQuestionRebuilds(q, e, nowId);
    ReplaceBySelf(qs, q);
    assert Upsert(qs, f.editingId, NewQuestion(f, nowId)) == qs;
    assert bank[sel := qs] == bank;
  }

  /**
   * A stored question without a type loads as single choice, so saving it
   * unchanged is accepted but rewrites it with the type `pilihan_ganda`:
   * the bank does change.
   */
  lemma {:induction false} UntypedReSaveBecomesSingleChoice(bank: Bank, q: Question, e: Editor, nowId: string)
    requires q in Lookup(bank, e.selectedSubtest)
    requires q.id != "" && q.questionType == ""
    requires !IsBlank(q.question) && NoBlankOption(q.options)
    ensures AddOrUpdate(bank, LoadForEdit(q, e), nowId).error == None
    ensures AddOrUpdate(bank, LoadForEdit(q, e), nowId).bank[e.selectedSubtest]
            == Replace(Lookup(bank, e.selectedSubtest), q.id, q.(questionType := PilihanGanda))
    ensures AddOrUpdate(bank, LoadForEdit(q, e), nowId).bank != bank
  {
    var f, sel := LoadForEdit(q, e), e.selectedSubtest;
    var qs := bank[sel];
    var q' := q.(questionType := PilihanGanda);
    assert sel in bank;
    LoadedUntypedQuestion(q, e, nowId);
    var out := AddOrUpdate(bank, f, nowId);
    assert out.bank == bank[sel := Upsert(qs, q.id, q')];
    var i :| 0 <= i < |qs| && qs[i] == q;
    assert out.bank[sel][i] == q' != q == bank[sel][i];
  }

  /** An untyped stored question loads as a valid single-choice form that rebuilds it with that type. */
  lemma LoadedUntypedQuestion(q: Question, e: Editor, nowId: string)
    requires q.id != "" && q.questionType == ""
    requires !IsBlank(q.question) && NoBlankOption(q.options)
    ensures Validate(LoadForEdit(q, e)) == None
    ensures NewQuestion(LoadForEdit(q, e), nowId) == q.(questionType := PilihanGanda)
  {
    var f := LoadForEdit(q, e);
    assert f.questionType == PilihanGanda && f.questionText == q.question && f.options == q.options;
  }

  /** The form loaded from a stored question rebuilds that same question. */
  lemma LoadedQuestionRebuilds(q: Question, e: Editor, nowId: string)
    requires q.id != "" && q.questionType != ""
    requires q.questionType == Isian ==> q.options == []
    ensures NewQuestion(LoadForEdit(q, e), nowId) == q
  {
  }

  /** Replacing the entries of an id by the one question that carries it changes nothing. */
  lemma ReplaceBySelf(qs: seq<Question>, q: Question)
    requires forall x :: x in qs && x.id == q.id ==> x == q
    ensures Replace(qs, q.id, q) == qs
  {
    var r := Replace(qs, q.id, q);
    forall i | 0 <= i < |qs| ensures r[i] == qs[i] {
      assert qs[i] in qs;
    }
  }

  /**
   * Switching the type resets the key: a single-choice form is then saveable,
   * while a multiple-choice or `isian` form is refused until a key is entered.
   */
  lemma TypeChangeNeedsKey(e: Editor, questionType: string)
    requires !IsBlank(e.questionText)
    ensures questionType == Isian ==>
              Validate(HandleTypeChange(e, questionType)) == Some(MissingIsianKey)
    ensures questionType == PilihanMajemuk && NoBlankOption(e.options) ==>
              Validate(HandleTypeChange(e, questionType)) == Some(MissingMultiKey)
    ensures questionType == PilihanGanda && NoBlankOption(e.options) ==>
              Validate(HandleTypeChange(e, questionType)) == None
  {
  }

  /** Toggling one label into the fresh multiple-choice key makes the key part of the form acceptable. */
  lemma ToggleAfterTypeChange(e: Editor, opt: string)
    requires !IsBlank(e.questionText) && NoBlankOption(e.options)
    ensures var f := HandleTypeChange(e, PilihanMajemuk);
            Validate(f.(correctAnswer := Labels(Toggled(CurrentLabels(f.correctAnswer), opt)))) == None
  {
  }
}
