/** The state and the event handlers of the donation wizard in
    `src/app/doar/page.tsx`: the current step, the draft, the error messages,
    the three flags and the list of stored cats. */
module DonationWizard {
  import opened Wrappers
  import opened Text
  import opened Cep
  import opened DonationForm

  // ------------------------------------------------------- error messages

  /** An error message is shown under a field when its entry is a non-empty
      string: the page renders `errors.k && ...`, and "" is falsy. */
  predicate Shows(errors: Errors, k: Field) {
    k in errors && errors[k] != ""
  }

  /** `{ ...prev, ...clearedErrors }`: every updated key is set to "", every
      other entry is kept. */
  function Cleared(errors: Errors, keys: set<Field>): (r: Errors)
    ensures r.Keys == errors.Keys + keys
  {
    map k | k in errors.Keys + keys :: if k in keys then "" else errors[k]
  }

  /** Editing a field hides its message and leaves every other message as it was. */
  lemma ClearedShows(errors: Errors, keys: set<Field>, k: Field)
    ensures Shows(Cleared(errors, keys), k) <==> k !in keys && Shows(errors, k)
  {
  }

  /** After validation, the messages shown are exactly the step's errors: the
      validator never stores an empty message. */
  lemma ValidationShowsStepErrors(stepNumber: int, f: FormData, k: Field)
    ensures Shows(StepErrors(stepNumber, f), k) <==> k in StepErrors(stepNumber, f)
  {
  }

  // ---------------------------------------------------------------- steps

  /** `nextStep`'s new step: one further, capped at the last, when the step
      validates; otherwise unchanged. */
  function NextStepOf(step: int, f: FormData): (r: int)
    requires 1 <= step <= TotalSteps
    ensures 1 <= r <= TotalSteps
  {
    if StepErrors(step, f) == map[] then Min(step + 1, TotalSteps) else step
  }

  /** `prevStep`'s new step: one back, never below the first. */
  function PrevStepOf(step: int): (r: int)
    requires 1 <= step <= TotalSteps
    ensures 1 <= r <= TotalSteps
  {
    if step - 1 >= 1 then step - 1 else 1
  }

  /** The wizard moves on from a step before the last exactly when that step's
      rules hold; from the last step it never moves. */
  lemma NextStepAdvancesIff(step: int, f: FormData)
    requires 1 <= step <= TotalSteps
    ensures step < TotalSteps ==> (NextStepOf(step, f) == step + 1 <==> StepRulesHold(step, f))
    ensures step < TotalSteps ==> (NextStepOf(step, f) == step <==> !StepRulesHold(step, f))
    ensures step == TotalSteps ==> NextStepOf(step, f) == TotalSteps
  {
    StepValidIff(step, f);
  }

  /** Going back undoes a successful step forward. */
  lemma PrevUndoesNext(step: int, f: FormData)
    requires 1 <= step < TotalSteps && StepRulesHold(step, f)
    ensures PrevStepOf(NextStepOf(step, f)) == step
  {
    StepValidIff(step, f);
  }

  // ------------------------------------------------------------ CEP lookup

  /** `updateFormData({ cep: formatted })`. */
  function CepUpdate(value: string): (r: map<Field, Value>)
    ensures IsPartial(r) && r.Keys == {cep}
  {
    map[cep := Str(FormatCEP(value))]
  }

  /** The fields the looked-up address fills in; its `cep` is not used. */
  function AddressUpdate(a: AddressData): (r: map<Field, Value>)
    ensures IsPartial(r) && r.Keys == {street, neighborhood, city, state}
  {
    map[street := Str(a.street), neighborhood := Str(a.neighborhood), city := Str(a.city), state := Str(a.state)]
  }

  /** The address `handleCEPChange` obtains: a lookup only when the typed value
      holds exactly 8 digits. */
  function CepLookup(value: string, fetch: string -> Option<ViaCepResponse>): Option<AddressData> {
    if |Digits(value)| == 8 then FetchAddressByCEP(Digits(value), fetch) else None
  }

  /** The draft after `handleCEPChange(value)`. */
  function AfterCepChange(f: FormData, value: string, fetch: string -> Option<ViaCepResponse>): FormData {
    var masked := Merge(f, CepUpdate(value));
    match CepLookup(value, fetch)
    case Some(a) => Merge(masked, AddressUpdate(a))
    case None => masked
  }

  /** Merging the CEP update replaces the CEP and nothing else. */
  lemma MergeCep(f: FormData, value: string)
    ensures Merge(f, CepUpdate(value)) == f.(cep := FormatCEP(value))
  {
  }

  /** Merging a found address replaces the four address fields and nothing else. */
  lemma MergeAddress(f: FormData, a: AddressData)
    ensures Merge(f, AddressUpdate(a)) == f.(street := a.street, neighborhood := a.neighborhood, city := a.city, state := a.state)
  {
  }

  /** Typing into the CEP box stores the masked code; a found address fills
      street, neighborhood, city and state with the service's fields; every
      other field keeps its value. */
  lemma CepChangeFound(f: FormData, value: string, fetch: string -> Option<ViaCepResponse>, a: AddressData)
    requires CepLookup(value, fetch) == Some(a)
    ensures AfterCepChange(f, value, fetch) ==
      f.(cep := FormatCEP(value), street := a.street, neighborhood := a.neighborhood, city := a.city, state := a.state)
  {
    MergeCep(f, value);
    MergeAddress(f.(cep := FormatCEP(value)), a);
  }

  /** Without a found address only the CEP changes. */
  lemma CepChangeNotFound(f: FormData, value: string, fetch: string -> Option<ViaCepResponse>)
    requires CepLookup(value, fetch) == None
    ensures AfterCepChange(f, value, fetch) == f.(cep := FormatCEP(value))
  {
    MergeCep(f, value);
  }

  /** A value without exactly 8 digits never reaches the network. */
  lemma CepChangeWithoutEightDigits(f: FormData, value: string, fetch: string -> Option<ViaCepResponse>)
    requires |Digits(value)| != 8
    ensures AfterCepChange(f, value, fetch) == f.(cep := FormatCEP(value))
  {
    MergeCep(f, value);
  }

  // --------------------------------------------------------------- the page

  /** `DoarPage`'s state. The handlers are modelled as running to completion
      one at a time, so the loading and submitting flags are false between
      events. `storedCats` stands for the `miauplace_cats` entry of local
      storage. */
  class Wizard {
    var step: int
    var formData: FormData
    var errors: Errors
    var isLoadingCEP: bool
    var isSubmitting: bool
    var isSuccess: bool
    var storedCats: seq<PersistedCat>

    ghost predicate Valid()
      reads this
    {
      1 <= step <= TotalSteps && !isLoadingCEP && !isSubmitting
    }

    /** The page's initial state over the list already in storage. */
    constructor (stored: seq<PersistedCat>)
      ensures Valid()
      ensures step == 1 && formData == InitialFormData && errors == map[]
      ensures !isSuccess && storedCats == stored
    {
      step := 1;
      formData := InitialFormData;
      errors := map[];
      isLoadingCEP := false;
      isSubmitting := false;
      isSuccess := false;
      storedCats := stored;
    }

    /** `updateFormData`: merge the updates into the draft and blank the
        message of every updated key. */
    method UpdateFormData(updates: map<Field, Value>)
      requires IsPartial(updates)
      modifies this
      ensures formData == Merge(old(formData), updates)
      ensures errors == Cleared(old(errors), updates.Keys)
      ensures step == old(step) && storedCats == old(storedCats)
      ensures isLoadingCEP == old(isLoadingCEP) && isSubmitting == old(isSubmitting)
      ensures isSuccess == old(isSuccess)
    {
      formData := Merge(formData, updates);
      var clearedErrors: Errors := map[];
      var pending := updates.Keys;
      while pending != {}
        invariant pending <= updates.Keys
        invariant clearedErrors.Keys == updates.Keys - pending
        invariant forall k | k in clearedErrors :: clearedErrors[k] == ""
        decreases pending
      {
        var k :| k in pending;
        clearedErrors := clearedErrors[k := ""];
        pending := pending - {k};
      }
      errors := errors + clearedErrors;
    }

    /** `handleCEPChange`: store the masked code, then, when the typed value
        holds 8 digits, look the address up and fill it in if found. */
    method HandleCEPChange(value: string, fetch: string -> Option<ViaCepResponse>)
      requires Valid()
      modifies this
      ensures Valid()
      ensures formData == AfterCepChange(old(formData), value, fetch)
      ensures errors == Cleared(old(errors), {cep} + if CepLookup(value, fetch).Some? then {street, neighborhood, city, state} else {})
      ensures step == old(step) && storedCats == old(storedCats) && isSuccess == old(isSuccess)
    {
      UpdateFormData(CepUpdate(value));
      var cleanCEP := Digits(value);
      if |cleanCEP| == 8 {
        isLoadingCEP := true;
        var address := FetchAddressByCEP(cleanCEP, fetch);
        isLoadingCEP := false;
        if address.Some? {
          UpdateFormData(AddressUpdate(address.value));
        }
      }
      CombineClears(old(errors), {cep}, if CepLookup(value, fetch).Some? then {street, neighborhood, city, state} else {});
    }

    /** `togglePersonality`: drop the trait if picked, else append it. */
    method TogglePersonality(tag: string)
      modifies this
      ensures formData == Merge(old(formData), map[personality := Items(Toggled(old(formData).personality, tag))])
      ensures formData.personality == Toggled(old(formData).personality, tag)
      ensures errors == Cleared(old(errors), {personality})
      ensures step == old(step) && storedCats == old(storedCats) && isSuccess == old(isSuccess)
      ensures isLoadingCEP == old(isLoadingCEP) && isSubmitting == old(isSubmitting)
    {
      var updated := Toggled(formData.personality, tag);
      UpdateFormData(map[personality := Items(updated)]);
    }

    /** `validateStep`: replace the messages with the step's errors and pass
        when there are none. */
    method ValidateStep(stepNumber: int) returns (ok: bool)
      modifies this
      ensures errors == StepErrors(stepNumber, formData)
      ensures ok <==> StepRulesHold(stepNumber, formData)
      ensures formData == old(formData) && step == old(step) && storedCats == old(storedCats)
      ensures isLoadingCEP == old(isLoadingCEP) && isSubmitting == old(isSubmitting)
      ensures isSuccess == old(isSuccess)
    {
      var newErrors := StepErrors(stepNumber, formData);
      errors := newErrors;
      ok := |newErrors.Keys| == 0;
      StepValidIff(stepNumber, formData);
      assert ok <==> newErrors == map[];
    }

    /** `nextStep`: advance when the current step validates. */
    method NextStep()
      requires Valid()
      modifies this
      ensures Valid()
      ensures step == NextStepOf(old(step), old(formData))
      ensures errors == StepErrors(old(step), old(formData))
      ensures formData == old(formData) && storedCats == old(storedCats) && isSuccess == old(isSuccess)
    {
      var ok := ValidateStep(step);
      StepValidIff(step, formData);
      if ok {
        step := Min(step + 1, TotalSteps);
      }
    }

    /** `prevStep`: go back one step; the messages are kept. */
    method PrevStep()
      requires Valid()
      modifies this
      ensures Valid()
      ensures step == PrevStepOf(old(step))
      ensures formData == old(formData) && errors == old(errors)
      ensures storedCats == old(storedCats) && isSuccess == old(isSuccess)
    {
      step := if step - 1 >= 1 then step - 1 else 1;
    }

    /** `handleSubmit`: validate the current step and, when it passes, append
        the built record to the stored list and show the success screen.
        `id` and `createdAt` stand for the clock readings. */
    method HandleSubmit(id: string, createdAt: string)
      requires Valid()
      modifies this
      ensures Valid()
      ensures errors == StepErrors(old(step), old(formData))
      ensures formData == old(formData) && step == old(step)
      ensures StepRulesHold(old(step), old(formData)) ==>
        storedCats == old(storedCats) + [BuildRecord(old(formData), id, createdAt)] && isSuccess
      ensures !StepRulesHold(old(step), old(formData)) ==>
        storedCats == old(storedCats) && isSuccess == old(isSuccess)
    {
      var ok := ValidateStep(step);
      if !ok {
        return;
      }
      isSubmitting := true;
      var newCat := BuildRecord(formData, id, createdAt);
      storedCats := storedCats + [newCat];
      isSubmitting := false;
      isSuccess := true;
    }

    /** "Cadastrar Outro Gatinho": a fresh draft at the first step. The
        messages are left as they were. */
    method RegisterAnother()
      requires Valid()
      modifies this
      ensures Valid()
      ensures formData == InitialFormData && step == 1 && !isSuccess
      ensures errors == old(errors) && storedCats == old(storedCats)
    {
      formData := InitialFormData;
      step := 1;
      isSuccess := false;
    }
  }

  /** Clearing two batches of keys in turn clears their union. */
  lemma CombineClears(errors: Errors, first: set<Field>, second: set<Field>)
    ensures Cleared(Cleared(errors, first), second) == Cleared(errors, first + second)
  {
  }
}
