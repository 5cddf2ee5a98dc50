/** The values behind the donation wizard of `src/app/doar/page.tsx`: the
    draft record, the partial updates the inputs send, the per-step validator,
    the personality toggle and the record that submission stores. */
module DonationForm {
  import opened Wrappers
  import opened Text
  import opened CatTypes

  datatype AgeUnit = Months | Years

  /** The draft: every input of the four steps, flat. */
  datatype FormData = FormData(
    name: string,
    age: string,
    ageUnit: AgeUnit,
    breed: string,
    gender: Gender,
    description: string,
    personality: seq<string>,
    images: seq<string>,
    vaccinated: bool,
    neutered: bool,
    healthInfo: string,
    goodWithKids: bool,
    goodWithDogs: bool,
    goodWithCats: bool,
    cep: string,
    street: string,
    neighborhood: string,
    city: string,
    state: string,
    ownerName: string,
    ownerPhone: string,
    ownerWhatsapp: string,
    ownerEmail: string)

  /** `initialFormData`. */
  const InitialFormData := FormData(
    "", "", Years, "", Female, "", [], [],
    false, false, "",
    true, true, true,
    "", "", "", "", "",
    "", "", "", "")

  /** `keyof FormData`: the names under which updates and errors are keyed. */
  datatype Field =
    | name | age | ageUnit | breed | gender | description | personality | images
    | vaccinated | neutered | healthInfo
    | goodWithKids | goodWithDogs | goodWithCats
    | cep | street | neighborhood | city | state
    | ownerName | ownerPhone | ownerWhatsapp | ownerEmail

  /** A value stored under a key of the draft. */
  datatype Value = Str(str: string) | Flag(flag: bool) | Items(items: seq<string>) | Unit(unit: AgeUnit) | Sex(sex: Gender)

  /** Whether `v` has the TypeScript type of the field `k`. */
  predicate WellTyped(k: Field, v: Value) {
    match k
    case ageUnit => v.Unit?
    case gender => v.Sex?
    case personality | images => v.Items?
    case vaccinated | neutered | goodWithKids | goodWithDogs | goodWithCats => v.Flag?
    case _ => v.Str?
  }

  /** `formData[k]`. */
  function Get(f: FormData, k: Field): (v: Value)
    ensures WellTyped(k, v)
  {
    match k
    case name => Str(f.name)
    case age => Str(f.age)
    case ageUnit => Unit(f.ageUnit)
    case breed => Str(f.breed)
    case gender => Sex(f.gender)
    case description => Str(f.description)
    case personality => Items(f.personality)
    case images => Items(f.images)
    case vaccinated => Flag(f.vaccinated)
    case neutered => Flag(f.neutered)
    case healthInfo => Str(f.healthInfo)
    case goodWithKids => Flag(f.goodWithKids)
    case goodWithDogs => Flag(f.goodWithDogs)
    case goodWithCats => Flag(f.goodWithCats)
    case cep => Str(f.cep)
    case street => Str(f.street)
    case neighborhood => Str(f.neighborhood)
    case city => Str(f.city)
    case state => Str(f.state)
    case ownerName => Str(f.ownerName)
    case ownerPhone => Str(f.ownerPhone)
    case ownerWhatsapp => Str(f.ownerWhatsapp)
    case ownerEmail => Str(f.ownerEmail)
  }

  /** A `Partial<FormData>`: some keys, each with a value of its field's type. */
  predicate IsPartial(updates: map<Field, Value>) {
    forall k | k in updates :: WellTyped(k, updates[k])
  }

  function StrOr(updates: map<Field, Value>, k: Field, d: string): string
    requires IsPartial(updates) && WellTyped(k, Str(""))
  {
    if k in updates then updates[k].str else d
  }

  function FlagOr(updates: map<Field, Value>, k: Field, d: bool): bool
    requires IsPartial(updates) && WellTyped(k, Flag(false))
  {
    if k in updates then updates[k].flag else d
  }

  function ItemsOr(updates: map<Field, Value>, k: Field, d: seq<string>): seq<string>
    requires IsPartial(updates) && WellTyped(k, Items([]))
  {
    if k in updates then updates[k].items else d
  }

  /** `{ ...prev, ...updates }`: the given fields take the new values and every
      other field keeps its old one. */
  function Merge(prev: FormData, updates: map<Field, Value>): FormData
    requires IsPartial(updates)
  {
    FormData(
      StrOr(updates, name, prev.name),
      StrOr(updates, age, prev.age),
      if ageUnit in updates then updates[ageUnit].unit else prev.ageUnit,
      StrOr(updates, breed, prev.breed),
      if gender in updates then updates[gender].sex else prev.gender,
      StrOr(updates, description, prev.description),
      ItemsOr(updates, personality, prev.personality),
      ItemsOr(updates, images, prev.images),
      FlagOr(updates, vaccinated, prev.vaccinated),
      FlagOr(updates, neutered, prev.neutered),
      StrOr(updates, healthInfo, prev.healthInfo),
      FlagOr(updates, goodWithKids, prev.goodWithKids),
      FlagOr(updates, goodWithDogs, prev.goodWithDogs),
      FlagOr(updates, goodWithCats, prev.goodWithCats),
      StrOr(updates, cep, prev.cep),
      StrOr(updates, street, prev.street),
      StrOr(updates, neighborhood, prev.neighborhood),
      StrOr(updates, city, prev.city),
      StrOr(updates, state, prev.state),
      StrOr(updates, ownerName, prev.ownerName),
      StrOr(updates, ownerPhone, prev.ownerPhone),
      StrOr(updates, ownerWhatsapp, prev.ownerWhatsapp),
      StrOr(updates, ownerEmail, prev.ownerEmail))
  }

  /** After a merge, a field given in the update holds the new value and any
      other field holds its old one. */
  lemma MergeGet(prev: FormData, updates: map<Field, Value>, k: Field)
    requires IsPartial(updates)
    ensures Get(Merge(prev, updates), k) == if k in updates then updates[k] else Get(prev, k)
  {
  }

  // ------------------------------------------------------------ validateStep

  const TotalSteps := 4

  const NameRequired := "Nome e obrigatorio"
  const AgeRequired := "Idade e obrigatoria"
  const BreedRequired := "Selecione uma raca"
  const DescriptionRequired := "Descricao e obrigatoria"
  const DescriptionTooShort := "Descricao deve ter pelo menos 20 caracteres"
  const PersonalityRequired := "Selecione pelo menos uma caracteristica"
  const ImagesRequired := "Adicione pelo menos uma foto"
  const CepRequired := "CEP e obrigatorio"
  const CityRequired := "Cidade e obrigatoria"
  const NeighborhoodRequired := "Bairro e obrigatorio"
  const OwnerNameRequired := "Seu nome e obrigatorio"
  const WhatsappRequired := "WhatsApp e obrigatorio"
  const WhatsappInvalid := "WhatsApp invalido"

  /** The description needs at least this many characters. */
  const MinDescriptionLength := 20
  /** A WhatsApp number needs at least this many digits. */
  const MinWhatsappDigits := 10

  type Errors = map<Field, string>

  /** Step 1, the cat: each check runs in turn and a later one overwrites an
      earlier message for the same field. */
  function CatInfoErrors(f: FormData): Errors {
    var e0: Errors := map[];
    var e1 := if IsBlank(f.name) then e0[name := NameRequired] else e0;
    var e2 := if IsBlank(f.age) then e1[age := AgeRequired] else e1;
    var e3 := if f.breed == "" then e2[breed := BreedRequired] else e2;
    var e4 := if IsBlank(f.description) then e3[description := DescriptionRequired] else e3;
    var e5 := if |f.description| < MinDescriptionLength then e4[description := DescriptionTooShort] else e4;
    if |f.personality| == 0 then e5[personality := PersonalityRequired] else e5
  }

  /** Step 2, the photos. */
  function PhotoErrors(f: FormData): Errors {
    if |f.images| == 0 then map[images := ImagesRequired] else map[]
  }

  /** Step 3, the address: street and state are never checked. */
  function LocationErrors(f: FormData): Errors {
    var e0: Errors := map[];
    var e1 := if IsBlank(f.cep) then e0[cep := CepRequired] else e0;
    var e2 := if IsBlank(f.city) then e1[city := CityRequired] else e1;
    if IsBlank(f.neighborhood) then e2[neighborhood := NeighborhoodRequired] else e2
  }

  /** Step 4, the contact. */
  function ContactErrors(f: FormData): Errors {
    var e0: Errors := map[];
    var e1 := if IsBlank(f.ownerName) then e0[ownerName := OwnerNameRequired] else e0;
    var e2 := if IsBlank(f.ownerWhatsapp) then e1[ownerWhatsapp := WhatsappRequired] else e1;
    var phoneClean := Digits(f.ownerWhatsapp);
    if |phoneClean| < MinWhatsappDigits then e2[ownerWhatsapp := WhatsappInvalid] else e2
  }

  /** The fields a step checks. */
  function StepFields(stepNumber: int): set<Field> {
    if stepNumber == 1 then {name, age, breed, description, personality}
    else if stepNumber == 2 then {images}
    else if stepNumber == 3 then {cep, city, neighborhood}
    else if stepNumber == 4 then {ownerName, ownerWhatsapp}
    else {}
  }

  /** The error map `validateStep(stepNumber)` builds from the draft. A step
      only reports on its own fields, and every report is a non-empty message. */
  function StepErrors(stepNumber: int, f: FormData): (errs: Errors)
    ensures errs.Keys <= StepFields(stepNumber)
    ensures forall k | k in errs :: errs[k] != ""
  {
    if stepNumber == 1 then CatInfoErrors(f)
    else if stepNumber == 2 then PhotoErrors(f)
    else if stepNumber == 3 then LocationErrors(f)
    else if stepNumber == 4 then ContactErrors(f)
    else map[]
  }

  /** The rule `validateStep` checks for one field; fields no step checks
      have none. */
  predicate FieldRuleHolds(k: Field, f: FormData) {
    match k
    case name => !IsBlank(f.name)
    case age => !IsBlank(f.age)
    case breed => f.breed != ""
    case description => !IsBlank(f.description) && |f.description| >= MinDescriptionLength
    case personality => |f.personality| > 0
    case images => |f.images| > 0
    case cep => !IsBlank(f.cep)
    case city => !IsBlank(f.city)
    case neighborhood => !IsBlank(f.neighborhood)
    case ownerName => !IsBlank(f.ownerName)
    case ownerWhatsapp => |Digits(f.ownerWhatsapp)| >= MinWhatsappDigits
    case _ => true
  }

  /** The message a field is left with when its rule fails: the last check
      that fires for it wins. */
  function FieldMessage(k: Field, f: FormData): string {
    match k
    case name => NameRequired
    case age => AgeRequired
    case breed => BreedRequired
    case description =>
      if |f.description| < MinDescriptionLength then DescriptionTooShort else DescriptionRequired
    case personality => PersonalityRequired
    case images => ImagesRequired
    case cep => CepRequired
    case city => CityRequired
    case neighborhood => NeighborhoodRequired
    case ownerName => OwnerNameRequired
    case ownerWhatsapp => WhatsappInvalid
    case _ => ""
  }

  /** The rules of a step: those of each field it checks. */
  predicate StepRulesHold(stepNumber: int, f: FormData) {
    forall k | k in StepFields(stepNumber) :: FieldRuleHolds(k, f)
  }

  /** A step files an error under a field exactly when the field is one the
      step checks and its rule fails, and the message is that field's. */
  lemma StepErrorsExact(stepNumber: int, f: FormData, k: Field)
    ensures k in StepErrors(stepNumber, f) <==> k in StepFields(stepNumber) && !FieldRuleHolds(k, f)
    ensures k in StepErrors(stepNumber, f) ==> StepErrors(stepNumber, f)[k] == FieldMessage(k, f)
  {
    if stepNumber == 1 {
      CatInfoExact(f, k);
    } else if stepNumber == 3 {
      LocationExact(f, k);
    } else if stepNumber == 4 {
      ContactExact(f, k);
    }
  }

  lemma CatInfoExact(f: FormData, k: Field)
    ensures k in CatInfoErrors(f) <==> k in StepFields(1) && !FieldRuleHolds(k, f)
    ensures k in CatInfoErrors(f) ==> CatInfoErrors(f)[k] == FieldMessage(k, f)
  {
  }

  lemma LocationExact(f: FormData, k: Field)
    ensures k in LocationErrors(f) <==> k in StepFields(3) && !FieldRuleHolds(k, f)
    ensures k in LocationErrors(f) ==> LocationErrors(f)[k] == FieldMessage(k, f)
  {
  }

  lemma ContactExact(f: FormData, k: Field)
    ensures k in ContactErrors(f) <==> k in StepFields(4) && !FieldRuleHolds(k, f)
    ensures k in ContactErrors(f) ==> ContactErrors(f)[k] == FieldMessage(k, f)
  {
    if IsBlank(f.ownerWhatsapp) {
      BlankHasNoDigits(f.ownerWhatsapp);
    }
  }

  /** `validateStep` passes, its error map being empty, exactly when the
      step's rules hold. */
  lemma StepValidIff(stepNumber: int, f: FormData)
    ensures StepErrors(stepNumber, f) == map[] <==> StepRulesHold(stepNumber, f)
  {
    var e := StepErrors(stepNumber, f);
    if e == map[] {
      forall k | k in StepFields(stepNumber) ensures FieldRuleHolds(k, f) {
        StepErrorsExact(stepNumber, f, k);
      }
    } else {
      var k :| k in e;
      StepErrorsExact(stepNumber, f, k);
    }
  }

  /** The description's message: too short wins over required, and a
      description of 20 or more blanks keeps the required message. */
  lemma DescriptionMessage(f: FormData)
    ensures |f.description| < MinDescriptionLength ==> StepErrors(1, f)[description] == DescriptionTooShort
    ensures |f.description| >= MinDescriptionLength && IsBlank(f.description) ==>
      StepErrors(1, f)[description] == DescriptionRequired
    ensures |f.description| >= MinDescriptionLength && !IsBlank(f.description) ==>
      description !in StepErrors(1, f)
  {
  }

  /** The WhatsApp message: invalid whenever it has fewer than 10 digits, so the
      required message, which only a blank entry gets, never survives. */
  lemma WhatsappMessage(f: FormData)
    ensures ownerWhatsapp in StepErrors(4, f) <==> |Digits(f.ownerWhatsapp)| < MinWhatsappDigits
    ensures ownerWhatsapp in StepErrors(4, f) ==> StepErrors(4, f)[ownerWhatsapp] == WhatsappInvalid
  {
    if IsBlank(f.ownerWhatsapp) {
      BlankHasNoDigits(f.ownerWhatsapp);
    }
  }

  // ------------------------------------------------------- togglePersonality

  /** The most traits the form lets one pick: further buttons are disabled. */
  const MaxPersonality := 5

  predicate NoDuplicates(s: seq<string>) {
    forall i, j :: 0 <= i < j < |s| ==> s[i] != s[j]
  }

  /** `(t) => t !== trait`. */
  function Other(tag: string): string -> bool {
    (t: string) => t != tag
  }

  /** `togglePersonality`'s new list: drop the trait if present, else append it. */
  function Toggled(current: seq<string>, tag: string): seq<string> {
    if tag in current then Filter(current, Other(tag)) else current + [tag]
  }

  /** A trait's button is disabled when it is not picked and five already are. */
  predicate PersonalityDisabled(current: seq<string>, tag: string) {
    tag !in current && |current| >= MaxPersonality
  }

  /** Toggling flips the membership of the toggled trait and of no other. */
  lemma ToggleMembership(current: seq<string>, tag: string, t: string)
    ensures t == tag ==> (t in Toggled(current, tag) <==> t !in current)
    ensures t != tag ==> (t in Toggled(current, tag) <==> t in current)
  {
    FilterMembers(current, Other(tag), t);
  }

  /** Removing a trait from a duplicate-free list takes out its one position and
      keeps the others in order. */
  lemma ToggleOffKeepsOrder(current: seq<string>, i: nat)
    requires NoDuplicates(current) && i < |current|
    ensures Toggled(current, current[i]) == current[..i] + current[i + 1..]
  {
    var tag := current[i];
    var a, b := current[..i], current[i + 1..];
    assert current == a + [tag] + b;
    assert tag !in a by {
      forall j | 0 <= j < |a| ensures a[j] != tag {
        assert a[j] == current[j];
      }
    }
    assert tag !in b by {
      forall j | 0 <= j < |b| ensures b[j] != tag {
        assert b[j] == current[i + 1 + j];
      }
    }
    FilterOutOnce(a, b, tag);
  }

  /** Filtering out a value that is absent changes nothing. */
  lemma FilterOutAbsent(s: seq<string>, tag: string)
    requires tag !in s
    ensures Filter(s, Other(tag)) == s
  {
    FilterAllPass(s, Other(tag));
  }

  /** Filtering out a value that occurs once removes just that occurrence. */
  lemma FilterOutOnce(a: seq<string>, b: seq<string>, tag: string)
    requires tag !in a && tag !in b
    ensures Filter(a + [tag] + b, Other(tag)) == a + b
  {
    var keep := Other(tag);
    var front := a + [tag];
    FilterConcat(front, b, keep);
    FilterConcat(a, [tag], keep);
    FilterOutAbsent(a, tag);
    FilterOutAbsent(b, tag);
    FilterOutSingle(tag);
    assert Filter(front, keep) == a;
  }

  lemma FilterOutSingle(tag: string)
    ensures Filter([tag], Other(tag)) == []
  {
    assert [tag][1..] == [];
  }

  /** Appending and then removing a trait restores the list. */
  lemma ToggleTwiceRestores(current: seq<string>, tag: string)
    requires tag !in current
    ensures Toggled(Toggled(current, tag), tag) == current
  {
    FilterOutOnce(current, [], tag);
    assert current + [tag] + [] == current + [tag];
  }

  /** With additions disabled once five traits are picked, the list stays free
      of duplicates and at most five long. */
  lemma TogglePreservesBound(current: seq<string>, tag: string)
    requires NoDuplicates(current) && |current| <= MaxPersonality
    requires !PersonalityDisabled(current, tag)
    ensures NoDuplicates(Toggled(current, tag)) && |Toggled(current, tag)| <= MaxPersonality
  {
    if tag in current {
      var i :| 0 <= i < |current| && current[i] == tag;
      ToggleOffKeepsOrder(current, i);
      var r := current[..i] + current[i + 1..];
      assert forall a, b :: 0 <= a < b < |r| ==> r[a] != r[b] by {
        forall a, b | 0 <= a < b < |r|
          ensures r[a] != r[b]
        {
          var a', b' := if a < i then a else a + 1, if b < i then b else b + 1;
          assert r[a] == current[a'] && r[b] == current[b'] && a' < b';
        }
      }
    }
  }

  // ----------------------------------------------------- handleSubmit record

  /** The placeholder avatar every submitted owner gets. */
  const OwnerAvatar := "https://images.unsplash.com/photo-1472099645785-5658abf4ff4e?w=150"

  /** What `handleSubmit` pushes onto the stored list: the draft spread out,
      with `age` replaced by its label, plus an id, nested location, owner and
      compatibility groups, and a creation time. */
  datatype PersistedCat = PersistedCat(
    id: string,
    data: FormData,
    location: Location,
    owner: Owner,
    goodWith: GoodWith,
    createdAt: string)

  /** `${formData.age} ${formData.ageUnit === 'months' ? 'meses' : 'anos'}`. */
  function AgeLabel(f: FormData): string {
    f.age + " " + (if f.ageUnit == Months then "meses" else "anos")
  }

  /** The record built from the draft; `id` stands for `Date.now().toString()`
      and `createdAt` for `new Date().toISOString()`. */
  function BuildRecord(f: FormData, id: string, createdAt: string): (r: PersistedCat)
    ensures r.id == id && r.createdAt == createdAt
    ensures r.location == Location(f.city, f.state, f.neighborhood)
    ensures r.goodWith == GoodWith(f.goodWithKids, f.goodWithDogs, f.goodWithCats)
    ensures r.owner == Owner(f.ownerName, OwnerAvatar, None, Some(Digits(f.ownerWhatsapp)))
    ensures AllDigits(r.owner.whatsapp.value)
  {
    PersistedCat(
      id,
      f.(age := AgeLabel(f)),
      Location(f.city, f.state, f.neighborhood),
      Owner(f.ownerName, OwnerAvatar, None, Some(Digits(f.ownerWhatsapp))),
      GoodWith(f.goodWithKids, f.goodWithDogs, f.goodWithCats),
      createdAt)
  }

  /** A record built from a draft that passed the contact step names its
      owner and carries a WhatsApp number of at least ten digits, all of
      them the number's digits in order. */
  lemma RecordOfValidContact(f: FormData, id: string, createdAt: string)
    requires StepErrors(4, f) == map[]
    ensures var r := BuildRecord(f, id, createdAt);
      && !IsBlank(r.owner.name)
      && r.owner.whatsapp == Some(Digits(f.ownerWhatsapp))
      && |r.owner.whatsapp.value| >= MinWhatsappDigits
  {
    StepValidIff(4, f);
  }

  /** The stored record keeps every draft field except `age`, which becomes
      "<age> meses" or "<age> anos". */
  lemma RecordKeepsDraft(f: FormData, id: string, createdAt: string, k: Field)
    requires k != age
    ensures Get(BuildRecord(f, id, createdAt).data, k) == Get(f, k)
    ensures BuildRecord(f, id, createdAt).data.age == f.age + (if f.ageUnit == Months then " meses" else " anos")
  {
  }
}
