/** The persisted records: emitter types, emitter owners and emitters, with
    the column constraints their entity declarations put on them.
 */
module Entities {
  import opened Results

  /** `LocalDate` as a day count; only the order of dates matters. */
  type Date = int

  /** A `Double` column. Its value never takes part in any rule; only
      whether it is null does. */
  type Measure = real

  /** A minimum/maximum pair of measurements. */
  datatype Bounds = Bounds(min: Option<Measure>, max: Option<Measure>) {
    predicate Complete() {
      min.Some? && max.Some?
    }
  }

  /** `EmitterType` and `EmitterOwner` have the same shape: a generated id
      and a name column declared `nullable = false, unique = true`. */
  datatype NamedRecord = NamedRecord(id: Option<int>, name: Option<string>)

  type EmitterType = NamedRecord
  type EmitterOwner = NamedRecord

  /** An `Emitter` row. The type and owner links are the ids the
      `emitter_type_id` and `emitter_owner_id` join columns hold. */
  datatype Emitter = Emitter(
    id: Option<int>,
    factoryNumber: Option<string>,
    manufactureDate: Option<Date>,
    verificationPeriodicityInMonths: Option<int>,
    forExternalUse: Option<bool>,
    hasInternalGenerator: Option<bool>,
    pulseWidth: Bounds,
    pulseFrequency10: Bounds,
    pulseFrequency100: Bounds,
    pulseFrequency1000: Bounds,
    pulsePower: Bounds,
    divergenceAngle: Bounds,
    nonParallelism: Bounds,
    unevenness: Bounds,
    emitterTypeId: Option<int>,
    emitterOwnerId: Option<int>)

  /** The `nullable = false` columns of the emitter table are all set. The
      10 Hz and 100 Hz frequency pairs and the two links may be null. */
  predicate ColumnsOk(e: Emitter) {
    && e.factoryNumber.Some?
    && e.manufactureDate.Some?
    && e.verificationPeriodicityInMonths.Some?
    && e.forExternalUse.Some?
    && e.hasInternalGenerator.Some?
    && e.pulseWidth.Complete()
    && e.pulseFrequency1000.Complete()
    && e.pulsePower.Complete()
    && e.divergenceAngle.Complete()
    && e.nonParallelism.Complete()
    && e.unevenness.Complete()
  }

  /** Two emitters agree on every column but the id. */
  predicate SameFields(a: Emitter, b: Emitter) {
    a.(id := None) == b.(id := None)
  }

  const NoBounds: Bounds := Bounds(None, None)

  /** Clearing the nullable columns never breaks the column constraints,
      and neither does any id. */
  lemma NullableColumns(e: Emitter, id: Option<int>)
    ensures ColumnsOk(e) <==> ColumnsOk(e.(
      id := id,
      pulseFrequency10 := NoBounds,
      pulseFrequency100 := NoBounds,
      emitterTypeId := None,
      emitterOwnerId := None))
  {
  }

  /** Clearing any one of the other columns does break them. */
  lemma RequiredColumns(e: Emitter)
    ensures !ColumnsOk(e.(factoryNumber := None))
    ensures !ColumnsOk(e.(manufactureDate := None))
    ensures !ColumnsOk(e.(verificationPeriodicityInMonths := None))
    ensures !ColumnsOk(e.(forExternalUse := None))
    ensures !ColumnsOk(e.(hasInternalGenerator := None))
    ensures !ColumnsOk(e.(pulseWidth := e.pulseWidth.(min := None)))
    ensures !ColumnsOk(e.(pulseWidth := e.pulseWidth.(max := None)))
    ensures !ColumnsOk(e.(pulseFrequency1000 := e.pulseFrequency1000.(min := None)))
    ensures !ColumnsOk(e.(pulseFrequency1000 := e.pulseFrequency1000.(max := None)))
    ensures !ColumnsOk(e.(pulsePower := e.pulsePower.(min := None)))
    ensures !ColumnsOk(e.(pulsePower := e.pulsePower.(max := None)))
    ensures !ColumnsOk(e.(divergenceAngle := e.divergenceAngle.(min := None)))
    ensures !ColumnsOk(e.(divergenceAngle := e.divergenceAngle.(max := None)))
    ensures !ColumnsOk(e.(nonParallelism := e.nonParallelism.(min := None)))
    ensures !ColumnsOk(e.(nonParallelism := e.nonParallelism.(max := None)))
    ensures !ColumnsOk(e.(unevenness := e.unevenness.(min := None)))
    ensures !ColumnsOk(e.(unevenness := e.unevenness.(max := None)))
  {
  }
}
