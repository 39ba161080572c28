/**
 * The intake record and its validation schema: sixteen numeric fields, each
 * coerced with `Number(...)` and checked for integrality and an inclusive
 * range; the blood-group selector's code table; what a number input stores
 * when it is edited or cleared; and the JSON body a valid record is posted as.
 */
module IntakeSchema {
  import opened Js
  import opened Wrappers
  import opened NumberText
  import opened Bmi

  /** The fields of the record, named by their keys in the submitted JSON body. */
  datatype FieldName =
    | Age | Weight | Height | BloodGroup | PeriodFrequency
    | GainedWeight | ExcessiveHair | DarkSkin | HairLoss | FaceAcne
    | FastFood | RegularExercise | MoodSwings | RegularPeriods
    | PeriodDuration | BMI

  /** Every field, in the schema's order. */
  const AllFields: seq<FieldName> := [
    Age, Weight, Height, BloodGroup, PeriodFrequency,
    GainedWeight, ExcessiveHair, DarkSkin, HairLoss, FaceAcne,
    FastFood, RegularExercise, MoodSwings, RegularPeriods,
    PeriodDuration, BMI
  ]

  /** Where a field stands in the schema's order. */
  function Position(f: FieldName): (i: nat)
    ensures i < |AllFields| && AllFields[i] == f
  {
    match f
    case Age => 0
    case Weight => 1
    case Height => 2
    case BloodGroup => 3
    case PeriodFrequency => 4
    case GainedWeight => 5
    case ExcessiveHair => 6
    case DarkSkin => 7
    case HairLoss => 8
    case FaceAcne => 9
    case FastFood => 10
    case RegularExercise => 11
    case MoodSwings => 12
    case RegularPeriods => 13
    case PeriodDuration => 14
    case BMI => 15
  }

  lemma AllFieldsComplete()
    ensures forall f: FieldName :: f in AllFields
  {
    forall f: FieldName
      ensures f in AllFields
    {
      assert AllFields[Position(f)] == f;
    }
  }

  /** The field's key in the JSON body. */
  function Key(f: FieldName): string
  {
    match f
    case Age => "Age"
    case Weight => "Weight"
    case Height => "Height"
    case BloodGroup => "BloodGroup"
    case PeriodFrequency => "PeriodFrequency"
    case GainedWeight => "GainedWeight"
    case ExcessiveHair => "ExcessiveHair"
    case DarkSkin => "DarkSkin"
    case HairLoss => "HairLoss"
    case FaceAcne => "FaceAcne"
    case FastFood => "FastFood"
    case RegularExercise => "RegularExercise"
    case MoodSwings => "MoodSwings"
    case RegularPeriods => "RegularPeriods"
    case PeriodDuration => "PeriodDuration"
    case BMI => "BMI"
  }

  /** The nine yes/no answers. */
  predicate IsFlag(f: FieldName)
  {
    f in {GainedWeight, ExcessiveHair, DarkSkin, HairLoss, FaceAcne,
          FastFood, RegularExercise, MoodSwings, RegularPeriods}
  }

  /** The fields edited through a number input (BMI's input is read-only). */
  predicate HasNumberInput(f: FieldName)
  {
    f in {Age, Weight, Height, PeriodFrequency, PeriodDuration}
  }

  /** The form's values, one per field, as the form holds them before coercion. */
  datatype IntakeRecord = IntakeRecord(
    age: Value, weight: Value, height: Value, bloodGroup: Value,
    periodFrequency: Value, gainedWeight: Value, excessiveHair: Value,
    darkSkin: Value, hairLoss: Value, faceAcne: Value, fastFood: Value,
    regularExercise: Value, moodSwings: Value, regularPeriods: Value,
    periodDuration: Value, bmi: Value)

  function Get(r: IntakeRecord, f: FieldName): Value
  {
    match f
    case Age => r.age
    case Weight => r.weight
    case Height => r.height
    case BloodGroup => r.bloodGroup
    case PeriodFrequency => r.periodFrequency
    case GainedWeight => r.gainedWeight
    case ExcessiveHair => r.excessiveHair
    case DarkSkin => r.darkSkin
    case HairLoss => r.hairLoss
    case FaceAcne => r.faceAcne
    case FastFood => r.fastFood
    case RegularExercise => r.regularExercise
    case MoodSwings => r.moodSwings
    case RegularPeriods => r.regularPeriods
    case PeriodDuration => r.periodDuration
    case BMI => r.bmi
  }

  /** The record after the form stores v in field f: that field changes and no other. */
  function With(r: IntakeRecord, f: FieldName, v: Value): (r': IntakeRecord)
    ensures Get(r', f) == v
    ensures forall g :: g != f ==> Get(r', g) == Get(r, g)
  {
    match f
    case Age => r.(age := v)
    case Weight => r.(weight := v)
    case Height => r.(height := v)
    case BloodGroup => r.(bloodGroup := v)
    case PeriodFrequency => r.(periodFrequency := v)
    case GainedWeight => r.(gainedWeight := v)
    case ExcessiveHair => r.(excessiveHair := v)
    case DarkSkin => r.(darkSkin := v)
    case HairLoss => r.(hairLoss := v)
    case FaceAcne => r.(faceAcne := v)
    case FastFood => r.(fastFood := v)
    case RegularExercise => r.(regularExercise := v)
    case MoodSwings => r.(moodSwings := v)
    case RegularPeriods => r.(regularPeriods := v)
    case PeriodDuration => r.(periodDuration := v)
    case BMI => r.(bmi := v)
  }

  /** The form's default values: the nine answers start at 0, every other field is undefined. */
  const DefaultValues: IntakeRecord := IntakeRecord(
    Undefined, Undefined, Undefined, Undefined, Undefined,
    Num(0.0), Num(0.0), Num(0.0), Num(0.0), Num(0.0),
    Num(0.0), Num(0.0), Num(0.0), Num(0.0),
    Undefined, Undefined)

  lemma DefaultValuesShape(f: FieldName)
    ensures Get(DefaultValues, f) == if IsFlag(f) then Num(0.0) else Undefined
  {
  }

  // ---------------------------------------------------------------------
  // The schema, as a table of per-field rules

  datatype Bounds = Unbounded | Between(min: real, max: real)

  /** A field's rule: `z.coerce.number()`, then optionally `.int()`, then optionally `.min(..).max(..)`. */
  datatype Rule = Rule(integer: bool, bounds: Bounds)

  /** The schema's rule for each field: only BloodGroup has no range, and every range is non-empty. */
  function RuleOf(f: FieldName): (rule: Rule)
    ensures rule.bounds.Unbounded? <==> f == BloodGroup
    ensures rule.bounds.Between? ==> rule.bounds.min <= rule.bounds.max
    ensures IsFlag(f) ==> rule == Rule(true, Between(0.0, 1.0))
    ensures !rule.integer <==> f in {Weight, Height, BMI}
  {
    match f
    case Age => Rule(true, Between(12.0, 100.0))
    case Weight => Rule(false, Between(30.0, 200.0))
    case Height => Rule(false, Between(120.0, 220.0))
    case BloodGroup => Rule(true, Unbounded)
    case PeriodFrequency => Rule(true, Between(0.0, 100.0))
    case PeriodDuration => Rule(true, Between(0.0, 15.0))
    case BMI => Rule(false, Between(10.0, 50.0))
    case _ => Rule(true, Between(0.0, 1.0))
  }

  /** Whether a raw value passes a rule: it coerces to a number (not NaN) that meets the rule. */
  predicate Satisfies(v: Value, rule: Rule)
    ensures Satisfies(v, rule) ==> v.Num?
  {
    var n := ToNumber(v);
    n.Num?
    && (rule.integer ==> IsInteger(n.x))
    && (rule.bounds.Between? ==> rule.bounds.min <= n.x <= rule.bounds.max)
  }

  /** The fields whose values fail their rule: the fields the form reports errors for. */
  function FieldErrors(r: IntakeRecord): (errors: set<FieldName>)
    ensures forall f :: f in errors <==> !Satisfies(Get(r, f), RuleOf(f))
  {
    var errors := set f | f in AllFields && !Satisfies(Get(r, f), RuleOf(f));
    AllFieldsComplete();
    errors
  }

  // ---------------------------------------------------------------------
  // The same schema, stated field by field

  predicate IntegerIn(v: Value, lo: real, hi: real)
  {
    v.Num? && IsInteger(v.x) && lo <= v.x <= hi
  }

  predicate NumberIn(v: Value, lo: real, hi: real)
  {
    v.Num? && lo <= v.x <= hi
  }

  predicate IsAnswer(v: Value)
  {
    v == Num(0.0) || v == Num(1.0)
  }

  /** A record the schema accepts; every field of it holds a number. */
  predicate Accepted(r: IntakeRecord)
    ensures Accepted(r) ==> forall f :: Get(r, f).Num?
  {
    IntegerIn(r.age, 12.0, 100.0)
    && NumberIn(r.weight, 30.0, 200.0)
    && NumberIn(r.height, 120.0, 220.0)
    && r.bloodGroup.Num? && IsInteger(r.bloodGroup.x)
    && IntegerIn(r.periodFrequency, 0.0, 100.0)
    && IsAnswer(r.gainedWeight) && IsAnswer(r.excessiveHair) && IsAnswer(r.darkSkin)
    && IsAnswer(r.hairLoss) && IsAnswer(r.faceAcne) && IsAnswer(r.fastFood)
    && IsAnswer(r.regularExercise) && IsAnswer(r.moodSwings) && IsAnswer(r.regularPeriods)
    && IntegerIn(r.periodDuration, 0.0, 15.0)
    && NumberIn(r.bmi, 10.0, 50.0)
  }

  /** An answer passes its rule exactly when it is 0 or 1. */
  lemma AnswerRule(f: FieldName, v: Value)
    requires IsFlag(f)
    ensures Satisfies(v, RuleOf(f)) <==> IsAnswer(v)
  {
    if Satisfies(v, RuleOf(f)) {
      var k := v.x.Floor;
      assert v.x == k as real;
      assert k == 0 || k == 1;
    }
  }

  predicate FieldOk(r: IntakeRecord, f: FieldName)
  {
    Satisfies(Get(r, f), RuleOf(f))
  }

  lemma AcceptedGivesEveryField(r: IntakeRecord)
    requires Accepted(r)
    ensures forall f :: FieldOk(r, f)
  {
    forall f
      ensures FieldOk(r, f)
    {
      match f
      case Age =>
      case Weight =>
      case Height =>
      case BloodGroup =>
      case PeriodFrequency =>
      case PeriodDuration =>
      case BMI =>
      case _ => AnswerRule(f, Get(r, f));
    }
  }

  lemma EveryFieldGivesAccepted(r: IntakeRecord)
    requires forall f :: FieldOk(r, f)
    ensures Accepted(r)
  {
    assert FieldOk(r, Age) && FieldOk(r, Weight) && FieldOk(r, Height) && FieldOk(r, BloodGroup);
    assert FieldOk(r, PeriodFrequency) && FieldOk(r, PeriodDuration) && FieldOk(r, BMI);
    assert FieldOk(r, GainedWeight);
    AnswerRule(GainedWeight, Get(r, GainedWeight));
    assert FieldOk(r, ExcessiveHair);
    AnswerRule(ExcessiveHair, Get(r, ExcessiveHair));
    assert FieldOk(r, DarkSkin);
    AnswerRule(DarkSkin, Get(r, DarkSkin));
    assert FieldOk(r, HairLoss);
    AnswerRule(HairLoss, Get(r, HairLoss));
    assert FieldOk(r, FaceAcne);
    AnswerRule(FaceAcne, Get(r, FaceAcne));
    assert FieldOk(r, FastFood);
    AnswerRule(FastFood, Get(r, FastFood));
    assert FieldOk(r, RegularExercise);
    AnswerRule(RegularExercise, Get(r, RegularExercise));
    assert FieldOk(r, MoodSwings);
    AnswerRule(MoodSwings, Get(r, MoodSwings));
    assert FieldOk(r, RegularPeriods);
    AnswerRule(RegularPeriods, Get(r, RegularPeriods));
  }

  /** The table of rules and the field-by-field statement agree. */
  lemma AcceptedIffNoFieldErrors(r: IntakeRecord)
    ensures Accepted(r) <==> FieldErrors(r) == {}
    ensures Accepted(r) <==> forall f :: FieldOk(r, f)
  {
    if Accepted(r) {
      AcceptedGivesEveryField(r);
    }
    if forall f :: FieldOk(r, f) {
      EveryFieldGivesAccepted(r);
    }
    if FieldErrors(r) != {} {
      var f :| f in FieldErrors(r);
      assert !FieldOk(r, f);
    }
  }

  /**
   * What the form's resolver returns: the coerced record when every field
   * passes, otherwise the set of failing fields. On success the coerced
   * record is the record itself, because every valid field already holds a number.
   */
  function Validate(r: IntakeRecord): (result: Result<IntakeRecord, set<FieldName>>)
    ensures result.Ok? <==> Accepted(r)
    ensures result.Ok? ==> result.value == r
    ensures result.Err? ==> result.error != {}
    ensures result.Err? ==> forall f :: f in result.error <==> !Satisfies(Get(r, f), RuleOf(f))
  {
    AcceptedIffNoFieldErrors(r);
    var errors := FieldErrors(r);
    if errors == {} then Ok(r) else Err(errors)
  }

  lemma DefaultValuesInvalid()
    ensures Age in FieldErrors(DefaultValues) && BMI in FieldErrors(DefaultValues)
    ensures forall f :: IsFlag(f) ==> f !in FieldErrors(DefaultValues)
  {
  }

  // ---------------------------------------------------------------------
  // Blood group

  /** Any integer code passes validation; only the selector limits the codes offered. */
  lemma BloodGroupRule(v: Value)
    ensures Satisfies(v, RuleOf(BloodGroup)) <==> v.Num? && IsInteger(v.x)
  {
  }

  datatype BloodGroupOption = BloodGroupOption(caption: string, value: string)

  /** The selector's options: a caption and the code text stored for it. */
  const BloodGroupOptions: seq<BloodGroupOption> := [
    BloodGroupOption("A+", "11"),
    BloodGroupOption("A-", "12"),
    BloodGroupOption("B+", "13"),
    BloodGroupOption("B-", "14"),
    BloodGroupOption("O+", "15"),
    BloodGroupOption("O-", "16"),
    BloodGroupOption("AB+", "17"),
    BloodGroupOption("AB-", "18")
  ]

  lemma OptionValueIsCodeText(i: nat)
    requires i < |BloodGroupOptions|
    ensures BloodGroupOptions[i].value == NatToString(11 + i)
  {
    assert NatToString(1) == "1";
    assert NatToString(11 + i) == NatToString(1) + [DigitChar(1 + i)];
  }

  /** The code the selector stores for option i: `parseInt` of the option's value text. */
  function SelectedCode(i: nat): (v: Value)
    requires i < |BloodGroupOptions|
    ensures v == Num((11 + i) as real)
    ensures Satisfies(v, RuleOf(BloodGroup))
  {
    OptionValueIsCodeText(i);
    ParseIntNatToString(11 + i);
    ParseInt(BloodGroupOptions[i].value)
  }

  /** The eight options have distinct captions and distinct codes. */
  lemma BloodGroupOptionsDistinct(i: nat, j: nat)
    requires i < j < |BloodGroupOptions|
    ensures BloodGroupOptions[i].caption != BloodGroupOptions[j].caption
    ensures SelectedCode(i) != SelectedCode(j)
  {
  }

  // ---------------------------------------------------------------------
  // Number inputs

  /** A number input's text after an edit: empty, or the text of a number. */
  datatype NumberInput = Cleared | Entered(x: real)

  /** What the input's `onChange` stores: the number for non-empty text, 0 for empty text. */
  function StoredNumber(e: NumberInput): (v: Value)
    ensures v.Num?
  {
    match e
    case Cleared => Num(0.0)
    case Entered(x) => Num(x)
  }

  /** A cleared input stores 0, which Age, Weight and Height reject and PeriodFrequency and PeriodDuration accept. */
  lemma ClearedInputValidity()
    ensures StoredNumber(Cleared) == Num(0.0)
    ensures !Satisfies(StoredNumber(Cleared), RuleOf(Age))
    ensures !Satisfies(StoredNumber(Cleared), RuleOf(Weight))
    ensures !Satisfies(StoredNumber(Cleared), RuleOf(Height))
    ensures Satisfies(StoredNumber(Cleared), RuleOf(PeriodFrequency))
    ensures Satisfies(StoredNumber(Cleared), RuleOf(PeriodDuration))
  {
  }

  // ---------------------------------------------------------------------
  // Derived BMI

  /** The derivation invariant: when weight and height are both truthy, BMI holds the value derived from them. */
  predicate BmiConsistent(r: IntakeRecord)
  {
    var derived := DeriveBmi(r.weight, r.height);
    derived.Some? ==> r.bmi == Num(derived.value)
  }

  /** In a valid record kept consistent, BMI is the rounded index of its weight and height. */
  lemma AcceptedRecordBmiIsDerived(r: IntakeRecord)
    requires Accepted(r) && BmiConsistent(r)
    ensures r.bmi == Num(RoundToTenth(RawBmi(r.weight.x, r.height.x)))
  {
  }

  /** A weight and a height that each pass validation can derive a BMI that does not: 200 kg at 120 cm gives 138.9. */
  lemma ValidWeightAndHeightCanDeriveInvalidBmi()
    ensures Satisfies(Num(200.0), RuleOf(Weight)) && Satisfies(Num(120.0), RuleOf(Height))
    ensures DeriveBmi(Num(200.0), Num(120.0)) == Some(138.9)
    ensures !Satisfies(Num(138.9), RuleOf(BMI))
  {
    var raw := RawBmi(200.0, 120.0);
    assert raw * 1.44 == 200.0;
    assert 1389.0 <= raw * 10.0 + 0.5 < 1390.0;
  }

  // ---------------------------------------------------------------------
  // The request body

  /** Distinct fields have distinct keys. */
  lemma KeyInjective(f: FieldName, g: FieldName)
    requires f != g
    ensures Key(f) != Key(g)
  {
  }

  /** The keys of the posted JSON body. */
  const BodyKeys: set<string> := {
    "Age", "Weight", "Height", "BloodGroup", "PeriodFrequency",
    "GainedWeight", "ExcessiveHair", "DarkSkin", "HairLoss", "FaceAcne",
    "FastFood", "RegularExercise", "MoodSwings", "RegularPeriods",
    "PeriodDuration", "BMI"
  }

  lemma BodyKeysAreKeys()
    ensures forall f :: Key(f) in BodyKeys
    ensures forall k :: k in BodyKeys ==> exists f :: k == Key(f)
  {
    assert "Age" == Key(Age) && "Weight" == Key(Weight) && "Height" == Key(Height);
    assert "BloodGroup" == Key(BloodGroup) && "PeriodFrequency" == Key(PeriodFrequency);
    assert "GainedWeight" == Key(GainedWeight) && "ExcessiveHair" == Key(ExcessiveHair);
    assert "DarkSkin" == Key(DarkSkin) && "HairLoss" == Key(HairLoss) && "FaceAcne" == Key(FaceAcne);
    assert "FastFood" == Key(FastFood) && "RegularExercise" == Key(RegularExercise);
    assert "MoodSwings" == Key(MoodSwings) && "RegularPeriods" == Key(RegularPeriods);
    assert "PeriodDuration" == Key(PeriodDuration) && "BMI" == Key(BMI);
  }

  /** The JSON body posted for a valid record: one key per field, holding the field's number. */
  function RequestBody(r: IntakeRecord): (body: map<string, real>)
    requires Accepted(r)
    ensures forall f :: Key(f) in body && body[Key(f)] == Get(r, f).x
    ensures forall k :: k in body ==> exists f :: k == Key(f)
  {
    AcceptedIffNoFieldErrors(r);
    AllFieldsComplete();
    forall f, g | f != g
      ensures Key(f) != Key(g)
    {
      KeyInjective(f, g);
    }
    map f | f in AllFields :: Key(f) := Get(r, f).x
  }

  /** The body carries exactly the sixteen documented keys, no extras and no omissions. */
  lemma RequestBodyKeys(r: IntakeRecord)
    requires Accepted(r)
    ensures RequestBody(r).Keys == BodyKeys
  {
    BodyKeysAreKeys();
  }
}
