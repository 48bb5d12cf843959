/** The request bodies and the violations their constraint annotations
    produce. The validator reports a set of violations; the model lists
    them in declaration order, and only which violations occur, not their
    order, is part of what the program promises.
 */
module Requests {
  import opened Results
  import opened Text
  import opened Validation
  import opened Entities

  datatype EmitterTypeRequest = EmitterTypeRequest(name: Option<string>)

  datatype EmitterOwnerRequest = EmitterOwnerRequest(name: Option<string>)

  const NameField: string := "name"

  const TypeNameBlank: string := "Заполните поле \"Тип излучателя\""
  const TypeNameSize: string := "Тип излучателя должен состоять минимум из 3 символов"
  const OwnerNameBlank: string := "Заполните поле \"владелец\"!"
  const OwnerNameSize: string := "Имя владельца должно состоять минимум из 3, и максимум из 50 символов!"

  /** A name with `@NotBlank` and `@Size(min, max)`. */
  function NameViolations(name: Option<string>, min: nat, max: nat, blank: string, size: string): (r: seq<Violation>)
    requires blank != size
    ensures forall v | v in r :: v.field == NameField
    ensures Violation(NameField, blank) in r <==> name.None? || TrimsToEmpty(name.value)
    ensures Violation(NameField, size) in r <==> name.Some? && !(min <= |name.value| <= max)
    ensures forall v | v in r :: v == Violation(NameField, blank) || v == Violation(NameField, size)
    ensures Distinct(r)
    ensures r == [] <==> ValidName(name, min, max)
  {
    Check(NotBlank(name), NameField, blank) + Check(SizeWithin(name, min, max), NameField, size)
  }

  /** The names both constraints accept: present, of an allowed length and
      with a character that `trim` keeps. */
  predicate ValidName(name: Option<string>, min: nat, max: nat) {
    match name
    case None => false
    case Some(s) => min <= |s| <= max && exists i | 0 <= i < |s| :: !Trimmed(s[i])
  }

  function TypeRequestViolations(req: EmitterTypeRequest): (r: seq<Violation>)
    ensures forall v | v in r :: v.field == NameField
    ensures Violation(NameField, TypeNameBlank) in r <==> req.name.None? || TrimsToEmpty(req.name.value)
    ensures forall v | v in r :: v == Violation(NameField, TypeNameBlank) || v == Violation(NameField, TypeNameSize)
    ensures Distinct(r)
    ensures Violation(NameField, TypeNameSize) in r <==> req.name.Some? && !(3 <= |req.name.value| <= 255)
    ensures r == [] <==> ValidName(req.name, 3, 255)
  {
    assert TypeNameBlank != TypeNameSize by {
      assert |TypeNameBlank| != |TypeNameSize|;
    }
    NameViolations(req.name, 3, 255, TypeNameBlank, TypeNameSize)
  }

  function OwnerRequestViolations(req: EmitterOwnerRequest): (r: seq<Violation>)
    ensures forall v | v in r :: v.field == NameField
    ensures Violation(NameField, OwnerNameBlank) in r <==> req.name.None? || TrimsToEmpty(req.name.value)
    ensures forall v | v in r :: v == Violation(NameField, OwnerNameBlank) || v == Violation(NameField, OwnerNameSize)
    ensures Distinct(r)
    ensures Violation(NameField, OwnerNameSize) in r <==> req.name.Some? && !(3 <= |req.name.value| <= 50)
    ensures r == [] <==> ValidName(req.name, 3, 50)
  {
    assert OwnerNameBlank != OwnerNameSize by {
      assert |OwnerNameBlank| != |OwnerNameSize|;
    }
    NameViolations(req.name, 3, 50, OwnerNameBlank, OwnerNameSize)
  }

  /** `@Size` accepts null, so a missing name draws only the `@NotBlank`
      message; three spaces are long enough but blank; "12" is not blank
      but too short; "Type 1" breaks neither. */
  lemma TypeNameExamples()
    ensures TypeRequestViolations(EmitterTypeRequest(None)) == [Violation(NameField, TypeNameBlank)]
    ensures TypeRequestViolations(EmitterTypeRequest(Some("   "))) == [Violation(NameField, TypeNameBlank)]
    ensures TypeRequestViolations(EmitterTypeRequest(Some("12"))) == [Violation(NameField, TypeNameSize)]
    ensures TypeRequestViolations(EmitterTypeRequest(Some("Type 1"))) == []
  {
    assert !Trimmed("12"[0]);
    assert !Trimmed("Type 1"[0]);
  }

  /** A single space is both blank and too short: both messages, in no
      particular order. */
  lemma TypeNameBothBroken()
    ensures multiset(TypeRequestViolations(EmitterTypeRequest(Some(" "))))
      == multiset{Violation(NameField, TypeNameBlank), Violation(NameField, TypeNameSize)}
  {
    assert TypeRequestViolations(EmitterTypeRequest(Some(" ")))
      == [Violation(NameField, TypeNameBlank), Violation(NameField, TypeNameSize)];
  }

  lemma OwnerNameExamples()
    ensures OwnerRequestViolations(EmitterOwnerRequest(None)) == [Violation(NameField, OwnerNameBlank)]
    ensures OwnerRequestViolations(EmitterOwnerRequest(Some("   "))) == [Violation(NameField, OwnerNameBlank)]
    ensures OwnerRequestViolations(EmitterOwnerRequest(Some("12"))) == [Violation(NameField, OwnerNameSize)]
    ensures OwnerRequestViolations(EmitterOwnerRequest(Some("Owner 1"))) == []
  {
    assert !Trimmed("12"[0]);
    assert !Trimmed("Owner 1"[0]);
  }

  /** Grouped by field, a blank two-character owner name carries both
      messages, and nothing else, under NameField. */
  lemma OwnerNameGrouped()
    ensures var m := ErrorMessages(OwnerRequestViolations(EmitterOwnerRequest(Some("  "))));
      m.Keys == {NameField} && multiset(m[NameField]) == multiset{OwnerNameBlank, OwnerNameSize}
  {
    var r := OwnerRequestViolations(EmitterOwnerRequest(Some("  ")));
    assert r == [Violation(NameField, OwnerNameBlank), Violation(NameField, OwnerNameSize)];
    TwoOnOneField(NameField, OwnerNameBlank, OwnerNameSize);
  }

  /** `@NotBlank` trims: a name of control characters is blank to the
      validator although `String.isBlank` says otherwise, and a name of
      ideographic spaces is not blank to it although `String.isBlank` says
      it is. */
  lemma TrimmedBlankness()
    ensures !IsBlank("\U{0001}\U{0001}\U{0001}")
    ensures TypeRequestViolations(EmitterTypeRequest(Some("\U{0001}\U{0001}\U{0001}"))) == [Violation(NameField, TypeNameBlank)]
    ensures IsBlank("\U{3000}\U{3000}\U{3000}")
    ensures TypeRequestViolations(EmitterTypeRequest(Some("\U{3000}\U{3000}\U{3000}"))) == []
  {
    assert !IsWhitespace("\U{0001}\U{0001}\U{0001}"[0]);
    assert !Trimmed("\U{3000}\U{3000}\U{3000}"[0]);
  }

  /** The body of a create or update emitter request. The two `Boolean`
      flags carry no constraint that can be checked. */
  datatype EmitterRequest = EmitterRequest(
    factoryNumber: Option<string>,
    manufactureDate: Option<Date>,
    verificationPeriodicityInMonths: Option<int>,
    forExternalUse: Option<bool>,
    hasInternalGenerator: Option<bool>,
    pulseWidth: Bounds,
    pulseFrequency10: Bounds,
    pulseFrequency100: Bounds,
    pulseFrequency1000: Bounds,
    pulsePower: Bounds,
    divergenceAngle: Bounds,
    nonParallelism: Bounds,
    unevenness: Bounds,
    emitterTypeId: Option<int>,
    emitterOwnerId: Option<int>)

  const FactoryNumberField: string := "factoryNumber"
  const ManufactureDateField: string := "manufactureDate"
  const PeriodicityField: string := "verificationPeriodicityInMonths"
  const TypeIdField: string := "emitterTypeId"
  const OwnerIdField: string := "emitterOwnerId"

  const FactoryNumberBlank: string := "Заполните поле \"заводской номер\"!"
  const FactoryNumberSize: string := "Заводской номер излучателя должен состоять минимум из 2 и максимум из 10 символов!"
  const DateMissing: string := "Заполните поле \"дата изготовления\"!"
  const DateNotPast: string := "Проверьте корректность выбранной даты!"
  const PeriodicityMissing: string := "Заполните поле \"периодичность проверки\"!"
  const TypeMissing: string := "Выберите тип излучателя!"
  const OwnerMissing: string := "Выберите владельца излучателя!"

  /** The field names and `@NotNull` messages of a pair `minimumX` and
      `maximumX`. */
  datatype PairNames = PairNames(minField: string, minMessage: string, maxField: string, maxMessage: string)

  const PulseWidthNames := PairNames(
    "minimumPulseWidth", "Заполните поле \"минимальная длительность импульса\"!",
    "maximumPulseWidth", "Заполните поле \"максимальная длительность импульса\"!")

  const PulseFrequency10Names := PairNames(
    "minimumPulseFrequency10", "Заполните поле \"минимальная частота импульса (10 Гц)\"!",
    "maximumPulseFrequency10", "Заполните поле \"максимальная частота импульса (10 Гц)\"!")

  const PulseFrequency100Names := PairNames(
    "minimumPulseFrequency100", "Заполните поле \"минимальная частота импульса (100 Гц)\"!",
    "maximumPulseFrequency100", "Заполните поле \"максимальная частота импульса (100 Гц)\"!")

  const PulseFrequency1000Names := PairNames(
    "minimumPulseFrequency1000", "Заполните поле \"минимальная частота импульса (1000 Гц)\"!",
    "maximumPulseFrequency1000", "Заполните поле \"максимальная частота импульса (1000 Гц)\"!")

  const PulsePowerNames := PairNames(
    "minimumPulsePower", "Заполните поле \"минимальное значение импульсной мощности\"!",
    "maximumPulsePower", "Заполните поле \"максимальное значение импульсной мощности\"!")

  const DivergenceAngleNames := PairNames(
    "minimumRadiationFluxDivergenceAngle", "Заполните поле \"минимальное значение угла расходимости потока излучения\"!",
    "maximumRadiationFluxDivergenceAngle", "Заполните поле \"максимальное значение угла расходимости потока излучения\"!")

  const NonParallelismNames := PairNames(
    "minimumNonParallelismOfTheOpticalAndConstructionAxis", "Заполните поле \"минимальное значение непараллельности оптической и строительной оси\"!",
    "maximumNonParallelismOfTheOpticalAndConstructionAxis", "Заполните поле \"максимальное значение непараллельности оптической и строительной оси\"!")

  const UnevennessNames := PairNames(
    "minimumUnevennessOfRadiationFLux", "Заполните поле \"минимальное значение неравномерности потока излучения\"!",
    "maximumUnevennessOfRadiationFLux", "Заполните поле \"максимальное значение неравномерности потока излучения\"!")

  /** Whether `v` is the message of a missing minimum or maximum of the
      pair `b` named by `names`. */
  predicate MissingBound(b: Bounds, names: PairNames, v: Violation) {
    || (v == Violation(names.minField, names.minMessage) && b.min.None?)
    || (v == Violation(names.maxField, names.maxMessage) && b.max.None?)
  }

  /** How many of the two values of a pair are missing. */
  function Missing(b: Bounds): nat {
    (if b.min.None? then 1 else 0) + (if b.max.None? then 1 else 0)
  }

  /** Two `@NotNull` fields `minimumX` and `maximumX`. */
  function BoundsViolations(b: Bounds, names: PairNames): (r: seq<Violation>)
    ensures forall v :: v in r <==> MissingBound(b, names, v)
    ensures |r| == Missing(b)
    ensures r == [] <==> b.Complete()
  {
    Check(NotNull(b.min), names.minField, names.minMessage) + Check(NotNull(b.max), names.maxField, names.maxMessage)
  }

  /** Whether `x` is a violation of the factory number `v`. */
  predicate NumberViolation(v: Option<string>, x: Violation) {
    || (x == Violation(FactoryNumberField, FactoryNumberBlank) && !NotBlank(v))
    || (x == Violation(FactoryNumberField, FactoryNumberSize) && !SizeWithin(v, 2, 10))
  }

  /** Whether `x` is a violation of the manufacture date `v`. */
  predicate DateViolation(v: Option<Date>, today: Date, x: Violation) {
    || (x == Violation(ManufactureDateField, DateMissing) && v.None?)
    || (x == Violation(ManufactureDateField, DateNotPast) && !InPast(v, today))
  }

  /** Whether `x` is the `@NotNull` message of the absent value `v`. */
  predicate Absent<T>(v: Option<T>, field: string, message: string, x: Violation) {
    x == Violation(field, message) && v.None?
  }

  function FactoryNumberViolations(v: Option<string>): (r: seq<Violation>)
    ensures forall x | x in r :: x.field == FactoryNumberField
    ensures Violation(FactoryNumberField, FactoryNumberBlank) in r <==> !NotBlank(v)
    ensures Violation(FactoryNumberField, FactoryNumberSize) in r <==> v.Some? && !(2 <= |v.value| <= 10)
    ensures forall x | x in r :: x == Violation(FactoryNumberField, FactoryNumberBlank) || x == Violation(FactoryNumberField, FactoryNumberSize)
    ensures forall x :: x in r <==> NumberViolation(v, x)
    ensures Distinct(r)
    ensures r == [] <==> ValidName(v, 2, 10)
  {
    assert FactoryNumberBlank != FactoryNumberSize by {
      assert |FactoryNumberBlank| != |FactoryNumberSize|;
    }
    Check(NotBlank(v), FactoryNumberField, FactoryNumberBlank)
    + Check(SizeWithin(v, 2, 10), FactoryNumberField, FactoryNumberSize)
  }

  function ManufactureDateViolations(v: Option<Date>, today: Date): (r: seq<Violation>)
    ensures forall x | x in r :: x.field == ManufactureDateField
    ensures Violation(ManufactureDateField, DateMissing) in r <==> v.None?
    ensures Violation(ManufactureDateField, DateNotPast) in r <==> v.Some? && v.value >= today
    ensures forall x | x in r :: x == Violation(ManufactureDateField, DateMissing) || x == Violation(ManufactureDateField, DateNotPast)
    ensures forall x :: x in r <==> DateViolation(v, today, x)
    ensures Distinct(r)
    ensures r == [] <==> v.Some? && v.value < today
  {
    assert DateMissing != DateNotPast by {
      assert |DateMissing| != |DateNotPast|;
    }
    Check(NotNull(v), ManufactureDateField, DateMissing)
    + Check(InPast(v, today), ManufactureDateField, DateNotPast)
  }

  /** Whether `v` is the message of a missing measurement of `req`. */
  predicate MissingMeasurement(req: EmitterRequest, v: Violation) {
    || MissingBound(req.pulseWidth, PulseWidthNames, v)
    || MissingBound(req.pulseFrequency10, PulseFrequency10Names, v)
    || MissingBound(req.pulseFrequency100, PulseFrequency100Names, v)
    || MissingBound(req.pulseFrequency1000, PulseFrequency1000Names, v)
    || MissingBound(req.pulsePower, PulsePowerNames, v)
    || MissingBound(req.divergenceAngle, DivergenceAngleNames, v)
    || MissingBound(req.nonParallelism, NonParallelismNames, v)
    || MissingBound(req.unevenness, UnevennessNames, v)
  }

  /** How many of the sixteen measurements of `req` are missing. */
  function MissingMeasurements(req: EmitterRequest): nat {
    Missing(req.pulseWidth) + Missing(req.pulseFrequency10) + Missing(req.pulseFrequency100)
    + Missing(req.pulseFrequency1000) + Missing(req.pulsePower) + Missing(req.divergenceAngle)
    + Missing(req.nonParallelism) + Missing(req.unevenness)
  }

  /** The sixteen `@NotNull` measurement fields, pair by pair. */
  function MeasurementViolations(req: EmitterRequest): (r: seq<Violation>)
    ensures forall v :: v in r <==> MissingMeasurement(req, v)
    ensures |r| == MissingMeasurements(req)
    ensures r == [] <==> AllMeasured(req)
  {
    BoundsViolations(req.pulseWidth, PulseWidthNames)
    + BoundsViolations(req.pulseFrequency10, PulseFrequency10Names)
    + BoundsViolations(req.pulseFrequency100, PulseFrequency100Names)
    + BoundsViolations(req.pulseFrequency1000, PulseFrequency1000Names)
    + BoundsViolations(req.pulsePower, PulsePowerNames)
    + BoundsViolations(req.divergenceAngle, DivergenceAngleNames)
    + BoundsViolations(req.nonParallelism, NonParallelismNames)
    + BoundsViolations(req.unevenness, UnevennessNames)
  }

  /** Whether `v` is one of the violations of `req`, constraint by
      constraint, each field with its own message. */
  predicate Violates(req: EmitterRequest, today: Date, v: Violation) {
    || NumberViolation(req.factoryNumber, v)
    || DateViolation(req.manufactureDate, today, v)
    || Absent(req.verificationPeriodicityInMonths, PeriodicityField, PeriodicityMissing, v)
    || MissingMeasurement(req, v)
    || Absent(req.emitterTypeId, TypeIdField, TypeMissing, v)
    || Absent(req.emitterOwnerId, OwnerIdField, OwnerMissing, v)
  }

  /** How many constraints `req` breaks. */
  function BrokenConstraints(req: EmitterRequest, today: Date): nat {
    (if NotBlank(req.factoryNumber) then 0 else 1)
    + (if SizeWithin(req.factoryNumber, 2, 10) then 0 else 1)
    + (if req.manufactureDate.Some? then 0 else 1)
    + (if InPast(req.manufactureDate, today) then 0 else 1)
    + (if req.verificationPeriodicityInMonths.Some? then 0 else 1)
    + MissingMeasurements(req)
    + (if req.emitterTypeId.Some? then 0 else 1)
    + (if req.emitterOwnerId.Some? then 0 else 1)
  }

  /** All violations of an emitter request, field by field in declaration
      order: exactly the violations `Violates` names, one per broken
      constraint. */
  function EmitterRequestViolations(req: EmitterRequest, today: Date): (r: seq<Violation>)
    ensures forall v :: v in r <==> Violates(req, today, v)
    ensures |r| == BrokenConstraints(req, today)
    ensures r == [] <==> ValidEmitterRequest(req, today)
  {
    var factory := FactoryNumberViolations(req.factoryNumber);
    var date := ManufactureDateViolations(req.manufactureDate, today);
    var periodicity := Check(NotNull(req.verificationPeriodicityInMonths), PeriodicityField, PeriodicityMissing);
    var measured := MeasurementViolations(req);
    var typeId := Check(NotNull(req.emitterTypeId), TypeIdField, TypeMissing);
    var ownerId := Check(NotNull(req.emitterOwnerId), OwnerIdField, OwnerMissing);
    JoinedViolations(req, today, factory, date, periodicity, measured, typeId, ownerId);
    factory + date + periodicity + measured + typeId + ownerId
  }

  /** The list of all violations, assembled from what each part contains. */
  lemma JoinedViolations(req: EmitterRequest, today: Date, factory: seq<Violation>, date: seq<Violation>,
                         periodicity: seq<Violation>, measured: seq<Violation>, typeId: seq<Violation>, ownerId: seq<Violation>)
    requires forall v :: v in factory <==> NumberViolation(req.factoryNumber, v)
    requires |factory| == (if NotBlank(req.factoryNumber) then 0 else 1) + (if SizeWithin(req.factoryNumber, 2, 10) then 0 else 1)
    requires factory == [] <==> ValidName(req.factoryNumber, 2, 10)
    requires forall v :: v in date <==> DateViolation(req.manufactureDate, today, v)
    requires |date| == (if req.manufactureDate.Some? then 0 else 1) + (if InPast(req.manufactureDate, today) then 0 else 1)
    requires forall v :: v in periodicity <==> Absent(req.verificationPeriodicityInMonths, PeriodicityField, PeriodicityMissing, v)
    requires |periodicity| == if req.verificationPeriodicityInMonths.Some? then 0 else 1
    requires forall v :: v in measured <==> MissingMeasurement(req, v)
    requires |measured| == MissingMeasurements(req)
    requires measured == [] <==> AllMeasured(req)
    requires forall v :: v in typeId <==> Absent(req.emitterTypeId, TypeIdField, TypeMissing, v)
    requires |typeId| == if req.emitterTypeId.Some? then 0 else 1
    requires forall v :: v in ownerId <==> Absent(req.emitterOwnerId, OwnerIdField, OwnerMissing, v)
    requires |ownerId| == if req.emitterOwnerId.Some? then 0 else 1
    ensures var r := factory + date + periodicity + measured + typeId + ownerId;
      && (forall v :: v in r <==> Violates(req, today, v))
      && |r| == BrokenConstraints(req, today)
      && (r == [] <==> ValidEmitterRequest(req, today))
  {
  }

  /** The requests every constraint accepts, stated field by field. */
  predicate ValidEmitterRequest(req: EmitterRequest, today: Date) {
    && ValidName(req.factoryNumber, 2, 10)
    && req.manufactureDate.Some? && req.manufactureDate.value < today
    && req.verificationPeriodicityInMonths.Some?
    && AllMeasured(req)
    && req.emitterTypeId.Some?
    && req.emitterOwnerId.Some?
  }

  /** Every minimum and maximum is present. */
  predicate AllMeasured(req: EmitterRequest) {
    && req.pulseWidth.Complete()
    && req.pulseFrequency10.Complete()
    && req.pulseFrequency100.Complete()
    && req.pulseFrequency1000.Complete()
    && req.pulsePower.Complete()
    && req.divergenceAngle.Complete()
    && req.nonParallelism.Complete()
    && req.unevenness.Complete()
  }

  /** Validity does not look at the generator flag: the six frequency
      fields are required whether or not the emitter has an internal
      generator. */
  lemma ValidityIgnoresGenerator(req: EmitterRequest, today: Date, flag: Option<bool>)
    ensures EmitterRequestViolations(req.(hasInternalGenerator := flag), today) == []
      <==> EmitterRequestViolations(req, today) == []
    ensures EmitterRequestViolations(req, today) == [] ==>
      req.pulseFrequency10.Complete() && req.pulseFrequency100.Complete() && req.pulseFrequency1000.Complete()
  {
  }

  /** The request with every measurement pair emptied: what is left once
      the measured values are set aside. */
  function WithoutBounds(req: EmitterRequest): EmitterRequest {
    req.(pulseWidth := NoBounds, pulseFrequency10 := NoBounds, pulseFrequency100 := NoBounds,
      pulseFrequency1000 := NoBounds, pulsePower := NoBounds, divergenceAngle := NoBounds,
      nonParallelism := NoBounds, unevenness := NoBounds)
  }

  /** Each of the eight pairs is complete in `a` exactly when it is in `b`. */
  predicate SamePresence(a: EmitterRequest, b: EmitterRequest) {
    && (a.pulseWidth.Complete() <==> b.pulseWidth.Complete())
    && (a.pulseFrequency10.Complete() <==> b.pulseFrequency10.Complete())
    && (a.pulseFrequency100.Complete() <==> b.pulseFrequency100.Complete())
    && (a.pulseFrequency1000.Complete() <==> b.pulseFrequency1000.Complete())
    && (a.pulsePower.Complete() <==> b.pulsePower.Complete())
    && (a.divergenceAngle.Complete() <==> b.divergenceAngle.Complete())
    && (a.nonParallelism.Complete() <==> b.nonParallelism.Complete())
    && (a.unevenness.Complete() <==> b.unevenness.Complete())
  }

  /** No constraint relates a minimum to its maximum, or looks at any
      measured value: two requests that differ only in their measurements,
      with the same pairs filled in, are valid or invalid together. A
      reversed pair is one instance. */
  lemma BoundsAreUnordered(req: EmitterRequest, req': EmitterRequest, today: Date)
    requires WithoutBounds(req) == WithoutBounds(req') && SamePresence(req, req')
    ensures EmitterRequestViolations(req, today) == [] <==> EmitterRequestViolations(req', today) == []
  {
    assert req.factoryNumber == req'.factoryNumber && req.manufactureDate == req'.manufactureDate
      && req.verificationPeriodicityInMonths == req'.verificationPeriodicityInMonths
      && req.emitterTypeId == req'.emitterTypeId && req.emitterOwnerId == req'.emitterOwnerId
    by {
      assert WithoutBounds(req).factoryNumber == WithoutBounds(req').factoryNumber;
      assert WithoutBounds(req).manufactureDate == WithoutBounds(req').manufactureDate;
      assert WithoutBounds(req).verificationPeriodicityInMonths == WithoutBounds(req').verificationPeriodicityInMonths;
      assert WithoutBounds(req).emitterTypeId == WithoutBounds(req').emitterTypeId;
      assert WithoutBounds(req).emitterOwnerId == WithoutBounds(req').emitterOwnerId;
    }
  }

  /** The explicit request-to-record conversion (field for field, no id). */
  function ToEmitter(req: EmitterRequest): (e: Emitter)
    ensures e.id.None?
  {
    Emitter(None, req.factoryNumber, req.manufactureDate, req.verificationPeriodicityInMonths,
      req.forExternalUse, req.hasInternalGenerator,
      req.pulseWidth, req.pulseFrequency10, req.pulseFrequency100, req.pulseFrequency1000,
      req.pulsePower, req.divergenceAngle, req.nonParallelism, req.unevenness,
      req.emitterTypeId, req.emitterOwnerId)
  }

  /** A request that passes validation fills every not-null column, as long
      as both flags are present (nothing validates them). */
  lemma ValidRequestFitsColumns(req: EmitterRequest, today: Date)
    requires EmitterRequestViolations(req, today) == []
    ensures req.forExternalUse.Some? && req.hasInternalGenerator.Some? <==> ColumnsOk(ToEmitter(req))
  {
  }
}
