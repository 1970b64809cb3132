/** The settings editor of the Apple app (GhostteaConfigurationModel.swift): one
    main-actor object whose operations give way to each other at every `await`.
    Each method here is what runs between two awaits, so any sequence of calls
    is an interleaving. */
module ConfigEditor {
  import opened Common

  const MAXIMUM_DOCUMENT_BYTES: nat := 64 * 1024

  /** A resolved configuration, with the document text it was resolved from. */
  datatype Snapshot = Snapshot(source: string, errors: set<string>)

  datatype Document = Document(revision: string, contents: string)

  datatype DocumentUpdate = DocumentUpdate(document: Document, config: Snapshot)

  // --------------------------------------------------------------- the store

  /** One try of a reload: the document, the resolution, the document again;
      nothing where a call threw. */
  datatype Attempt = Attempt(before: Option<Document>, reloaded: Option<Snapshot>, after: Option<Document>)

  predicate Threw(a: Attempt) {
    a.before.None? || a.reloaded.None? || a.after.None?
  }

  predicate Settled(a: Attempt) {
    !Threw(a) && a.before.value.revision == a.after.value.revision
  }

  /** Up to three tries for a resolution with the same revision on both sides. */
  method ReloadDocument(tries: seq<Attempt>) returns (r: Option<DocumentUpdate>)
    requires |tries| == 3
    ensures r.Some? <==> exists k ::
      0 <= k < 3 && Settled(tries[k]) && forall j | 0 <= j < k :: !Threw(tries[j]) && !Settled(tries[j])
    ensures r.Some? ==> exists k ::
      && 0 <= k < 3 && Settled(tries[k]) && r.value == DocumentUpdate(tries[k].after.value, tries[k].reloaded.value)
      && forall j | 0 <= j < k :: !Threw(tries[j]) && !Settled(tries[j])
  {
    for i := 0 to 3
      invariant forall j | 0 <= j < i :: !Threw(tries[j]) && !Settled(tries[j])
    {
      if Threw(tries[i]) {
        return None;
      }
      if tries[i].before.value.revision == tries[i].after.value.revision {
        return Some(DocumentUpdate(tries[i].after.value, tries[i].reloaded.value));
      }
    }
    return None;
  }

  // -------------------------------------------------------------- the editor

  datatype ValidationState = Unchecked | Validating | Validated | Invalid

  /** A validation task: asleep for its delay, then inside the store, then over. */
  datatype Phase = Asleep | Inside | Over

  datatype Check = Check(sequence: nat, draft: string, phase: Phase, cancelled: bool)

  /** What is suspended at an await with `isSaving` set. */
  datatype Operation =
    | CheckingBeforeSave(draft: string)
    | Replacing(draft: string, expected: string)
    | Adopting(pending: Document, draftAtStart: string, keepDraft: bool)

  datatype Replaced = Saved(update: DocumentUpdate) | Conflicting(current: Document) | Failed

  function Utf8Width(c: char): nat {
    var n := c as int;
    if n < 0x80 then 1 else if n < 0x800 then 2 else if n < 0x1_0000 then 3 else 4
  }

  function ByteCount(s: string): nat {
    if s == "" then 0 else Utf8Width(s[0]) + ByteCount(s[1..])
  }

  /** UTF-8: one byte to U+007F, two to U+07FF, three to U+FFFF, four beyond. */
  lemma WidthIsUtf8(c: char)
    ensures Utf8Width(c) == 1 <==> c <= '\U{007F}'
    ensures Utf8Width(c) == 2 <==> '\U{007F}' < c <= '\U{07FF}'
    ensures Utf8Width(c) == 3 <==> '\U{07FF}' < c <= '\U{FFFF}'
    ensures Utf8Width(c) == 4 <==> '\U{FFFF}' < c
  {
  }

  lemma {:induction false} BytesAdd(a: string, b: string)
    ensures ByteCount(a + b) == ByteCount(a) + ByteCount(b)
    decreases |a|
  {
    if a == "" {
      assert a + b == b;
    } else {
      BytesAdd(a[1..], b);
      assert (a + b)[1..] == a[1..] + b;
    }
  }

  /** What may happen next, with what the store says where it is asked. */
  datatype Event =
    | Typed(contents: string)
    | Reverted
    | Dismissed
    | SaveAsked
    | AdoptionAsked(keepDraft: bool)
    | CheckWakes(i: nat)
    | CheckIsAnswered(i: nat, errors: Option<set<string>>)
    | SaveChecked(errors: Option<set<string>>)
    | SaveReplaced(result: Replaced)
    | Adopted(baseline: Option<DocumentUpdate>)
  {
    predicate ReadsWhole() {
      && (SaveReplaced? && result.Saved? ==> result.update.config.source == result.update.document.contents)
      && (Adopted? && baseline.Some? ==> baseline.value.config.source == baseline.value.document.contents)
    }

    /** What the user makes of the draft. */
    function Draft(draft: string, base: string): string {
      if Typed? then contents else if Reverted? then base else draft
    }

    predicate AdoptionFails() {
      Adopted? && baseline.None?
    }

    /** Not a wish of the user's about the draft. */
    predicate Background() {
      !Typed? && !Reverted? && !(Adopted? && baseline.Some?)
    }
  }

  /** What the user makes of the draft in the course of these events. */
  function DraftAfter(events: seq<Event>, draft: string, base: string): string
    decreases |events|
  {
    if events == [] then draft
    else events[|events| - 1].Draft(DraftAfter(events[..|events| - 1], draft, base), base)
  }

  class Editor {
    var savedConfiguration: Snapshot
    var effectiveConfiguration: Snapshot
    var document: Document
    var rawDraft: string
    var validation: Option<Snapshot>
    var validationState: ValidationState
    var isSaving: bool
    var editable: bool
    var conflict: Option<Document>
    var baseContents: string
    var validationSequence: nat
    var checks: seq<Check>                  // every validation task ever started; the last is `validationTask`
    var operation: Option<Operation>

    /** The last configuration pair read from the store is of one version. */
    predicate Whole()
      reads this
    {
      savedConfiguration.source == baseContents
    }

    function Blocking(config: Snapshot): set<string>
      reads this
    {
      config.errors - savedConfiguration.errors
    }

    predicate CanSave()
      reads this
    {
      && editable && rawDraft != baseContents && !isSaving && validationState == Validated
      && (validation.Some? ==> Blocking(validation.value) == {})
      && ByteCount(rawDraft) <= MAXIMUM_DOCUMENT_BYTES
    }

    /** What may be saved: a draft of an editable document, other than it, of at
        most 64 KiB, found valid with no error the saved configuration has not,
        while nothing else is being saved. */
    lemma SaveableExactly()
      ensures CanSave() <==>
        && editable && !isSaving && rawDraft != baseContents && ByteCount(rawDraft) <= 65536
        && validationState == Validated
        && (validation.Some? ==> forall e | e in validation.value.errors :: e in savedConfiguration.errors)
    {
      if validation.Some? {
        assert Blocking(validation.value) == {} <==> forall e | e in validation.value.errors :: e in savedConfiguration.errors by {
          forall e | e in validation.value.errors && e !in savedConfiguration.errors ensures e in Blocking(validation.value) {
          }
        }
      }
    }

    /** This task will report on the current draft. */
    predicate Live(i: nat)
      reads this
    {
      && i < |checks| && checks[i].phase != Over && !checks[i].cancelled
      && checks[i].sequence == validationSequence && checks[i].draft == rawDraft
    }

    /** The document is the base, one save or adoption runs at a time, and no
        validation task but the last is still wanted. */
    ghost predicate Orderly()
      reads this
    {
      && document.contents == baseContents
      && (isSaving <==> operation.Some?)
      && (operation.Some? || conflict.Some? || checks != [] ==> editable)
      && (operation.Some? && operation.value.Replacing? ==> operation.value.expected == document.revision)
      && (forall i | 0 <= i < |checks| :: checks[i].sequence <= validationSequence)
      && (forall i | 0 <= i < |checks| - 1 :: checks[i].cancelled || checks[i].phase == Over)
    }

    /** What every interleaving keeps: a draft that counts as valid has exactly
        its own validation in effect, or is the base under the configuration read
        with it. */
    ghost predicate Sound()
      reads this
    {
      && Orderly()
      && (validationState == Validated ==>
            && editable && validation == Some(effectiveConfiguration) && Blocking(effectiveConfiguration) == {}
            && (effectiveConfiguration.source == rawDraft
                || (rawDraft == baseContents && effectiveConfiguration == savedConfiguration)))
    }

    predicate Awaited()
      reads this
    {
      checks != [] && Live(|checks| - 1)
    }

    /** A draft that waits for its validation gets it. */
    ghost predicate Attended()
      reads this
    {
      validationState == Validating ==> Awaited()
    }

    /** An adoption is waiting for its reload. */
    predicate AdoptionUnderWay()
      reads this
    {
      operation.Some? && operation.value.Adopting?
    }

    /** No validation task can report on the draft any more. */
    ghost predicate Superseded()
      reads this
    {
      forall i | 0 <= i < |checks| :: checks[i].sequence < validationSequence
    }

    /** The draft waits for a validation that nothing will bring. */
    ghost predicate Stranded()
      reads this
    {
      validationState == Validating && Superseded()
    }

    /** The snapshot and the document are two reads; nothing holds the file still
        between them. */
    constructor (snapshot: Snapshot, loaded: Option<Document>, fallback: Document)
      requires fallback.contents == ""
      ensures Sound() && Attended() && checks == [] && operation.None? && conflict.None?
      ensures savedConfiguration == effectiveConfiguration == snapshot
      ensures document == (if loaded.Some? then loaded.value else fallback) && rawDraft == document.contents
      ensures editable == loaded.Some? && validationSequence == 0
      ensures validationState == if editable then Validated else Invalid
      ensures Whole() <==> snapshot.source == document.contents
    {
      savedConfiguration, effectiveConfiguration := snapshot, snapshot;
      var read := if loaded.Some? then loaded.value else fallback;
      document, rawDraft, baseContents := read, read.contents, read.contents;
      validation, validationState := Some(snapshot), if loaded.Some? then Validated else Invalid;
      isSaving, editable, conflict := false, loaded.Some?, None;
      validationSequence, checks, operation := 0, [], None;
    }

    method CancelValidation()
      modifies this`checks
      ensures |checks| == |old(checks)|
      ensures forall i | 0 <= i < |checks| - 1 :: checks[i] == old(checks)[i]
      ensures checks != [] ==> checks[|checks| - 1] == old(checks)[|checks| - 1].(cancelled := true)
    {
      if checks != [] {
        checks := checks[|checks| - 1 := checks[|checks| - 1].(cancelled := true)];
      }
    }

    method ScheduleValidation()
      requires Orderly() && validationState == Validating && editable
      modifies this`checks, this`validationSequence, this`validationState
      ensures Sound() && Attended()
      ensures if ByteCount(rawDraft) <= MAXIMUM_DOCUMENT_BYTES
              then validationState == Validating && Awaited() && checks[|checks| - 1].phase == Asleep
                && validationSequence == old(validationSequence) + 1
              else validationState == Invalid && validationSequence == old(validationSequence)
    {
      CancelValidation();
      if ByteCount(rawDraft) > MAXIMUM_DOCUMENT_BYTES {
        validationState := Invalid;
        return;
      }
      validationSequence := validationSequence + 1;
      checks := checks + [Check(validationSequence, rawDraft, Asleep, false)];
    }

    method ChangeDraft(contents: string)
      requires Orderly() && editable
      modifies this`rawDraft, this`validationState, this`conflict, this`checks, this`validationSequence
      ensures Sound() && Attended() && rawDraft == contents && conflict.None?
      ensures validationState == if ByteCount(contents) <= MAXIMUM_DOCUMENT_BYTES then Validating else Invalid
      ensures validationState == Validating ==> Awaited() && checks[|checks| - 1].phase == Asleep
    {
      rawDraft := contents;
      validationState := Validating;
      conflict := None;
      ScheduleValidation();
    }

    /** Every edit: typed, replaced, appended, imported or from a panel. */
    method Edit(contents: string)
      requires Sound()
      modifies this`rawDraft, this`validationState, this`conflict, this`checks, this`validationSequence
      ensures Sound() && (old(Attended()) ==> Attended())
      ensures editable ==> Attended() && conflict.None? && validationState != Validated
      ensures rawDraft == if editable then contents else old(rawDraft)
      ensures editable && ByteCount(contents) <= MAXIMUM_DOCUMENT_BYTES ==>
        validationState == Validating && Awaited() && checks[|checks| - 1].phase == Asleep
    {
      if editable {
        ChangeDraft(contents);
      }
    }

    // ----------------------------------------------------- a validation task

    /** Its delay is over: into the store, unless it was cancelled. */
    method WakeCheck(i: nat)
      requires Sound() && i < |checks| && checks[i].phase == Asleep
      modifies this`checks
      ensures Sound() && (old(Attended()) ==> Attended())
      ensures checks == old(checks)[i := old(checks)[i].(phase := if old(checks)[i].cancelled then Over else Inside)]
    {
      checks := checks[i := checks[i].(phase := if checks[i].cancelled then Over else Inside)];
    }

    /** The store answered. Only a task that is still wanted, for the draft as it
        still is, changes anything; and no answer ever changes the draft. */
    method CheckAnswers(i: nat, errors: set<string>)
      requires Sound() && i < |checks| && checks[i].phase == Inside
      modifies this`checks, this`validation, this`validationState, this`effectiveConfiguration
      ensures Sound() && (old(Attended()) ==> Attended())
      ensures checks == old(checks)[i := old(checks)[i].(phase := Over)]
      ensures !old(Live(i)) ==>
        && validation == old(validation) && validationState == old(validationState)
        && effectiveConfiguration == old(effectiveConfiguration)
      ensures old(Live(i)) ==>
        && validation == Some(Snapshot(rawDraft, errors))
        && validationState == (if Blocking(Snapshot(rawDraft, errors)) == {} then Validated else Invalid)
        && effectiveConfiguration ==
           if validationState == Validated then Snapshot(rawDraft, errors) else old(effectiveConfiguration)
    {
      var check := checks[i];
      var result := Snapshot(check.draft, errors);
      if check.cancelled || check.sequence != validationSequence || check.draft != rawDraft {
        checks := checks[i := check.(phase := Over)];
        return;
      }
      checks := checks[i := check.(phase := Over)];
      validation := Some(result);
      var valid := Blocking(result) == {};
      validationState := if valid then Validated else Invalid;
      if valid {
        effectiveConfiguration := result;
      }
    }

    /** The store threw. Here only the sequence is compared: not whether the task
        was cancelled, nor whether the draft is still the one it had. */
    method CheckThrows(i: nat)
      requires Sound() && i < |checks| && checks[i].phase == Inside
      modifies this`checks, this`validationState
      ensures Sound() && (old(Attended()) ==> Attended())
      ensures checks == old(checks)[i := old(checks)[i].(phase := Over)]
      ensures validationState ==
        if old(checks)[i].sequence == validationSequence then Invalid else old(validationState)
    {
      var check := checks[i];
      if check.sequence != validationSequence {
        checks := checks[i := check.(phase := Over)];
        return;
      }
      checks := checks[i := check.(phase := Over)];
      validationState := Invalid;
    }

    // ------------------------------------------------------------------ save

    method SaveBegins()
      requires Sound()
      modifies this`isSaving, this`operation
      ensures Sound() && (old(Attended()) ==> Attended())
      ensures operation == if old(CanSave()) then Some(CheckingBeforeSave(rawDraft)) else old(operation)
    {
      if !CanSave() {
        return;
      }
      isSaving := true;
      operation := Some(CheckingBeforeSave(rawDraft));
    }

    /** The save's own validation is back; nothing where the store threw. The
        store is asked to replace the document only with the draft as it is now,
        free of new errors, against the revision it was last read at. */
    method SaveIsChecked(errors: Option<set<string>>)
      requires Sound() && operation.Some? && operation.value.CheckingBeforeSave?
      modifies this`isSaving, this`operation, this`validation, this`validationState
      ensures Sound() && (old(Attended()) ==> Attended())
      ensures operation.Some? <==>
        && errors.Some? && Blocking(Snapshot(rawDraft, errors.value)) == {}
        && old(operation).value.draft == rawDraft
      ensures operation.Some? ==> operation.value == Replacing(rawDraft, document.revision)
      ensures if errors.Some? && Blocking(Snapshot(old(operation).value.draft, errors.value)) != {}
              then validationState == Invalid && validation == Some(Snapshot(old(operation).value.draft, errors.value))
              else validationState == old(validationState) && validation == old(validation)
    {
      var draft := operation.value.draft;
      if errors.None? {
        isSaving, operation := false, None;
        return;
      }
      var latest := Snapshot(draft, errors.value);
      if Blocking(latest) != {} {
        validation, validationState := Some(latest), Invalid;
        isSaving, operation := false, None;
        return;
      }
      if draft != rawDraft {
        isSaving, operation := false, None;
        return;
      }
      operation := Some(Replacing(draft, document.revision));
    }

    method Saves(update: DocumentUpdate, draft: string)
      requires Sound() && operation.None? && editable
      modifies this`document, this`baseContents, this`savedConfiguration, this`conflict, this`rawDraft, this`validation
      modifies this`validationState, this`effectiveConfiguration, this`checks, this`validationSequence
      ensures Sound() && Attended() && conflict.None?
      ensures document == update.document && savedConfiguration == update.config
      ensures if old(rawDraft) == draft
              then rawDraft == document.contents && validationState == Validated
              else rawDraft == old(rawDraft) && validationState != Validated
    {
      hide ByteCount;
      var hasNewerDraft := rawDraft != draft;
      document := update.document;
      baseContents := update.document.contents;
      savedConfiguration := update.config;
      conflict := None;
      if hasNewerDraft {
        validationState := Validating;
        ScheduleValidation();
      } else {
        rawDraft := update.document.contents;
        effectiveConfiguration := update.config;
        validation := Some(update.config);
        validationState := Validated;
      }
    }

    /** The replacement is back. A draft typed while it was in flight stays,
        unsaved, over the version just saved. */
    method SaveReplaces(result: Replaced)
      requires Sound() && operation.Some? && operation.value.Replacing?
      modifies this
      ensures Sound() && (old(Attended()) ==> Attended())
      ensures operation.None? && editable == old(editable)
      ensures result.Saved? ==>
        && document == result.update.document && savedConfiguration == result.update.config && conflict.None?
        && Attended() && (Whole() <==> result.update.config.source == result.update.document.contents)
        && if old(rawDraft) == old(operation).value.draft
           then rawDraft == document.contents && validationState == Validated
           else rawDraft == old(rawDraft) && validationState != Validated
      ensures !result.Saved? ==>
        && document == old(document) && baseContents == old(baseContents) && rawDraft == old(rawDraft)
        && savedConfiguration == old(savedConfiguration) && effectiveConfiguration == old(effectiveConfiguration)
        && validationState == old(validationState) && checks == old(checks)
        && validationSequence == old(validationSequence)
        && conflict == if result.Conflicting? then Some(result.current) else old(conflict)
    {
      hide ByteCount;
      var draft := operation.value.draft;
      isSaving, operation := false, None;
      match result
      case Saved(update) =>
        Saves(update, draft);
      case Conflicting(current) =>
        conflict := Some(current);
      case Failed =>
    }

    // ------------------------------------------------------------- conflicts

    method AdoptConflict(keepDraft: bool)
      requires Sound()
      modifies this`checks, this`validationSequence, this`isSaving, this`conflict, this`operation
      ensures Sound()
      ensures old(conflict.Some? && !isSaving) ==>
        && operation == Some(Adopting(old(conflict).value, rawDraft, keepDraft)) && conflict.None?
        && Superseded() && (Attended() <==> validationState != Validating)
      ensures !old(conflict.Some? && !isSaving) ==>
        operation == old(operation) && conflict == old(conflict) && checks == old(checks)
        && validationSequence == old(validationSequence)
    {
      if conflict.None? || isSaving {
        return;
      }
      CancelValidation();
      validationSequence := validationSequence + 1;
      isSaving := true;
      operation := Some(Adopting(conflict.value, rawDraft, keepDraft));
      conflict := None;
    }

    method Adopts(baseline: DocumentUpdate, draftAtStart: string, keepDraft: bool)
      requires Sound() && operation.None?
      modifies this`document, this`baseContents, this`savedConfiguration, this`conflict, this`rawDraft, this`validation
      modifies this`validationState, this`effectiveConfiguration, this`checks, this`validationSequence, this`editable
      ensures Sound() && Attended() && editable
      ensures document == baseline.document && savedConfiguration == baseline.config
      ensures rawDraft == if keepDraft || old(rawDraft) != draftAtStart then old(rawDraft) else document.contents
      ensures validationState == Validated <==> rawDraft == document.contents
    {
      hide ByteCount;
      var retainedDraft := rawDraft;
      var preserveDraft := keepDraft || retainedDraft != draftAtStart;
      document := baseline.document;
      baseContents := baseline.document.contents;
      savedConfiguration := baseline.config;
      editable := true;
      if preserveDraft && retainedDraft != baseContents {
        ChangeDraft(retainedDraft);
      } else {
        rawDraft := baseContents;
        effectiveConfiguration := baseline.config;
        validation := Some(baseline.config);
        validationState := Validated;
      }
    }

    /** The reload is back; nothing where it threw. The draft gives way to the
        document only if the user chose so and it is still the draft they chose
        it for. */
    method AdoptionEnds(baseline: Option<DocumentUpdate>)
      requires Sound() && operation.Some? && operation.value.Adopting?
      modifies this
      ensures Sound() && operation.None?
      ensures baseline.Some? ==>
        && Attended() && document == baseline.value.document && savedConfiguration == baseline.value.config && editable
        && (Whole() <==> baseline.value.config.source == baseline.value.document.contents)
        && rawDraft == (if old(operation).value.keepDraft || old(rawDraft) != old(operation).value.draftAtStart
                        then old(rawDraft) else document.contents)
        && (validationState == Validated <==> rawDraft == document.contents)
      ensures baseline.None? ==>
        && rawDraft == old(rawDraft) && document == old(document) && validationState == old(validationState)
        && savedConfiguration == old(savedConfiguration) && effectiveConfiguration == old(effectiveConfiguration)
        && checks == old(checks) && validationSequence == old(validationSequence)
        && conflict == Some(old(operation).value.pending)
        && (Attended() <==> old(Attended())) && (Superseded() <==> old(Superseded()))
    {
      var adopting := operation.value;
      isSaving, operation := false, None;
      if baseline.None? {
        conflict := Some(adopting.pending);
        return;
      }
      Adopts(baseline.value, adopting.draftAtStart, adopting.keepDraft);
    }

    method DismissConflict()
      requires Sound()
      modifies this`conflict
      ensures Sound() && (old(Attended()) ==> Attended()) && conflict.None?
    {
      conflict := None;
    }

    method Revert()
      requires Sound()
      modifies this`checks, this`rawDraft, this`effectiveConfiguration, this`validation, this`validationState, this`conflict
      ensures Sound() && Attended() && conflict.None?
      ensures rawDraft == baseContents && effectiveConfiguration == savedConfiguration
      ensures validationState == if editable then Validated else Invalid
      ensures |checks| == |old(checks)|
      ensures forall i | 0 <= i < |checks| :: checks[i].phase == old(checks)[i].phase
                                              && checks[i].sequence == old(checks)[i].sequence
    {
      CancelValidation();
      rawDraft := baseContents;
      effectiveConfiguration := savedConfiguration;
      validation := Some(savedConfiguration);
      validationState := if editable then Validated else Invalid;
      conflict := None;
    }

    // ---------------------------------------------------------- interleavings

    /** Whether this can come next: the user may act at any time, a task or an
        operation only where it is suspended; and what the store saved is what
        it was given. */
    predicate Possible(e: Event)
      reads this
    {
      match e
      case CheckWakes(i) => i < |checks| && checks[i].phase == Asleep
      case CheckIsAnswered(i, _) => i < |checks| && checks[i].phase == Inside
      case SaveChecked(_) => operation.Some? && operation.value.CheckingBeforeSave?
      case SaveReplaced(result) =>
        && operation.Some? && operation.value.Replacing?
        && (result.Saved? ==> result.update.document.contents == operation.value.draft)
      case Adopted(_) => operation.Some? && operation.value.Adopting?
      case _ => true
    }

    /** Exactly what takes a valid draft out of being valid: an edit; its own
        validation finding a new error; any failure of the latest task, whatever
        text that was for and though it was cancelled; the check of a save finding
        a new error, whatever text was being saved; and a save or an adoption that
        leaves the draft newer than the document. */
    predicate Unsettles(e: Event)
      requires Possible(e)
      reads this
    {
      match e
      case Typed(_) => true
      case CheckIsAnswered(i, Some(errors)) => Live(i) && Blocking(Snapshot(rawDraft, errors)) != {}
      case CheckIsAnswered(i, None) => checks[i].sequence == validationSequence
      case SaveChecked(Some(errors)) => Blocking(Snapshot(operation.value.draft, errors)) != {}
      case SaveReplaced(Saved(_)) => rawDraft != operation.value.draft
      case Adopted(Some(baseline)) =>
        (operation.value.keepDraft || rawDraft != operation.value.draftAtStart) && rawDraft != baseline.document.contents
      case _ => false
    }

    method Perform(e: Event)
      requires Sound()
      modifies this
      ensures Sound()
      ensures e.Background() ==> rawDraft == old(rawDraft)
      ensures e.Dismissed? ==> conflict.None?
      ensures e.ReadsWhole() && old(Whole()) ==> Whole()
      ensures !e.AdoptionFails() && old(Attended() || AdoptionUnderWay()) ==> Attended() || AdoptionUnderWay()
      ensures old(AdoptionUnderWay()) && !e.Adopted? ==>
        && operation == old(operation) && baseContents == old(baseContents)
        && rawDraft == e.Draft(old(rawDraft), baseContents)
        && (if e.Typed? || e.Reverted? then Attended()
            else (old(Attended()) ==> Attended()) && (old(Stranded()) ==> Stranded()))
      ensures old(validationState) == Validated ==>
        (validationState != Validated <==> old(Possible(e) && Unsettles(e)))
    {
      hide ByteCount;
      if !Possible(e) {
        return;
      }
      match e
      case Typed(contents) => Edit(contents);
      case Reverted => Revert();
      case Dismissed => DismissConflict();
      case SaveAsked => SaveBegins();
      case AdoptionAsked(keepDraft) => AdoptConflict(keepDraft);
      case CheckWakes(i) => WakeCheck(i);
      case CheckIsAnswered(i, errors) =>
        if errors.Some? {
          CheckAnswers(i, errors.value);
        } else {
          CheckThrows(i);
        }
      case SaveChecked(errors) => SaveIsChecked(errors);
      case SaveReplaced(result) => SaveReplaces(result);
      case Adopted(baseline) => AdoptionEnds(baseline);
    }

    /** Over every interleaving: the editor stays sound, no completion changes
        the draft, the pair stays whole while the store's reads are, and a draft
        waits unattended only after a failed adoption. */
    method Interleave(events: seq<Event>)
      requires Sound()
      modifies this
      ensures Sound()
      ensures (forall e | e in events :: e.Background()) ==> rawDraft == old(rawDraft)
      ensures (forall e | e in events :: e.ReadsWhole()) && old(Whole()) ==>
        Whole() && (validationState == Validated ==> effectiveConfiguration.source == rawDraft)
      ensures (forall e | e in events :: !e.AdoptionFails()) && old(Attended() || AdoptionUnderWay()) ==>
        Attended() || AdoptionUnderWay()
    {
      for i := 0 to |events|
        invariant Sound()
        invariant (forall e | e in events :: e.Background()) ==> rawDraft == old(rawDraft)
        invariant (forall e | e in events :: e.ReadsWhole()) && old(Whole()) ==> Whole()
        invariant (forall e | e in events :: !e.AdoptionFails()) && old(Attended() || AdoptionUnderWay()) ==>
          Attended() || AdoptionUnderWay()
      {
        assert events[i] in events;
        Perform(events[i]);
      }
    }

    /** Whatever happens between the adoption of a conflict and its reload, the
        user's last text survives it: it gives way to the document only if the
        user chose so and has come back to the text they chose it for. */
    method CompletedAdoption(keepDraft: bool, events: seq<Event>, baseline: DocumentUpdate)
      requires Sound() && conflict.Some? && !isSaving
      requires forall e | e in events :: !e.Adopted?
      modifies this
      ensures Sound() && operation.None? && document == baseline.document && Attended()
      ensures var late := DraftAfter(events, old(rawDraft), old(baseContents));
        rawDraft == if keepDraft || late != old(rawDraft) then late else document.contents
    {
      hide ByteCount;
      AdoptConflict(keepDraft);
      for i := 0 to |events|
        invariant Sound() && operation == Some(Adopting(old(conflict).value, old(rawDraft), keepDraft))
        invariant baseContents == old(baseContents)
        invariant rawDraft == DraftAfter(events[..i], old(rawDraft), old(baseContents))
      {
        assert events[i] in events && events[..i + 1][..i] == events[..i];
        Perform(events[i]);
      }
      assert events[..|events|] == events;
      AdoptionEnds(Some(baseline));
    }

    /** When a reload fails after the adoption of a conflict, the draft is left
        waiting with no validation to come if and only if it was waiting for one
        when the adoption was asked for and the user has neither edited nor
        reverted it since, whatever else has happened. */
    method FailedAdoption(keepDraft: bool, events: seq<Event>)
      requires Sound() && conflict.Some? && !isSaving
      requires forall e | e in events :: !e.Adopted?
      modifies this
      ensures Sound() && operation.None?
      ensures validationState == Validating && !Awaited() <==>
        old(validationState) == Validating && forall e | e in events :: !e.Typed? && !e.Reverted?
    {
      hide ByteCount;
      AdoptConflict(keepDraft);
      ghost var untouched := true;
      for i := 0 to |events|
        invariant Sound() && AdoptionUnderWay()
        invariant untouched <==> forall e | e in events[..i] :: !e.Typed? && !e.Reverted?
        invariant if untouched && old(validationState) == Validating then Stranded() else Attended()
      {
        assert events[i] in events && events[..i + 1] == events[..i] + [events[i]];
        untouched := untouched && !events[i].Typed? && !events[i].Reverted?;
        Perform(events[i]);
      }
      assert events[..|events|] == events;
      AdoptionEnds(None);
    }
  }

  /** A draft that was typed and validated, and whose save is being checked. */
  method SaveBeingChecked(base: Document, x: string) returns (editor: Editor)
    requires base.contents != x && ByteCount(x) <= MAXIMUM_DOCUMENT_BYTES
    ensures fresh(editor) && editor.Sound() && editor.editable && editor.rawDraft == x && editor.document == base
    ensures editor.operation == Some(CheckingBeforeSave(x)) && editor.savedConfiguration.errors == {}
  {
    hide ByteCount;
    editor := new Editor(Snapshot(base.contents, {}), Some(base), Document("", ""));
    editor.Edit(x);
    editor.WakeCheck(|editor.checks| - 1);
    editor.CheckAnswers(|editor.checks| - 1, {});
    editor.SaveBegins();
  }

  method SaveInFlight(base: Document, x: string) returns (editor: Editor)
    requires base.contents != x && ByteCount(x) <= MAXIMUM_DOCUMENT_BYTES
    ensures fresh(editor) && editor.Sound() && editor.editable
    ensures editor.operation == Some(Replacing(x, base.revision))
  {
    hide ByteCount;
    editor := SaveBeingChecked(base, x);
    editor.SaveIsChecked(Some({}));
  }

  /** A draft typed while a save is in flight, and a conflict from that save. */
  method TypedDuringAConflictingSave(base: Document, x: string, y: string, theirs: Document) returns (editor: Editor)
    requires base.contents != x && ByteCount(x) <= MAXIMUM_DOCUMENT_BYTES && ByteCount(y) <= MAXIMUM_DOCUMENT_BYTES
    ensures fresh(editor) && editor.Sound() && editor.conflict == Some(theirs) && editor.operation.None?
    ensures editor.validationState == Validating && editor.rawDraft == y
  {
    hide ByteCount;
    editor := SaveInFlight(base, x);
    editor.Edit(y);
    editor.SaveReplaces(Conflicting(theirs));
  }

  /** An adoption of that conflict and a reload that fails: the draft is left
      waiting for a validation that was cancelled and that nothing will start
      again. */
  method FailedAdoptionStrandsTheDraft(base: Document, x: string, y: string, theirs: Document, keepDraft: bool)
    returns (state: ValidationState, awaited: bool, busy: bool, draft: string)
    requires base.contents != x && ByteCount(x) <= MAXIMUM_DOCUMENT_BYTES && ByteCount(y) <= MAXIMUM_DOCUMENT_BYTES
    ensures state == Validating && !awaited && !busy && draft == y
  {
    var editor := TypedDuringAConflictingSave(base, x, y, theirs);
    editor.AdoptConflict(keepDraft);
    editor.AdoptionEnds(None);
    state, awaited, busy, draft := editor.validationState, editor.Awaited(), editor.isSaving, editor.rawDraft;
  }

  /** A validation that was cancelled by a revert can still fail, and then the
      reverted editor, whose draft is the document itself, counts as invalid. */
  method StaleFailureInvalidatesARevert(base: Document, x: string)
    returns (before: ValidationState, after: ValidationState, atBase: bool)
    requires ByteCount(x) <= MAXIMUM_DOCUMENT_BYTES
    ensures before == Validated && after == Invalid && atBase
  {
    hide ByteCount;
    var editor := new Editor(Snapshot(base.contents, {}), Some(base), Document("", ""));
    editor.Edit(x);
    var last := |editor.checks| - 1;
    editor.WakeCheck(last);
    editor.Revert();
    before := editor.validationState;
    editor.CheckThrows(last);
    after := editor.validationState;
    atBase := editor.rawDraft == editor.document.contents && editor.effectiveConfiguration == editor.savedConfiguration;
  }

  /** And a save's own check can: of x, while y was typed and validated since. The
      newer draft is marked invalid over an error of the older, and no task is
      left to say otherwise. */
  method StaleSaveCheckInvalidatesANewerDraft(base: Document, x: string, y: string, error: string)
    returns (before: ValidationState, after: ValidationState, draft: string, about: Option<Snapshot>, awaited: bool)
    requires base.contents != x && ByteCount(x) <= MAXIMUM_DOCUMENT_BYTES && ByteCount(y) <= MAXIMUM_DOCUMENT_BYTES
    ensures before == Validated && after == Invalid && draft == y && about == Some(Snapshot(x, {error})) && !awaited
  {
    hide ByteCount;
    var editor := SaveBeingChecked(base, x);
    editor.Edit(y);
    var last := |editor.checks| - 1;
    editor.WakeCheck(last);
    editor.CheckAnswers(last, {});
    before := editor.validationState;
    assert error in editor.Blocking(Snapshot(x, {error}));
    editor.SaveIsChecked(Some({error}));
    after, draft, about, awaited := editor.validationState, editor.rawDraft, editor.validation, editor.Awaited();
  }
}
