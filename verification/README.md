# Emitter registry backend — a Dafny model

This project models the server side of the EmitterVerification registry. The registry keeps three kinds of records:

- **emitter types** and **emitter owners**: an id and a unique, non-null name;
- **emitters**: a factory number, a manufacture date, a verification period, two flags, eight minimum/maximum measurement pairs, and links to a type and an owner.

The model covers five parts of the backend:

- **Query-parameter parsing** (`PageUtils`): page number, page size, sort field and sort direction, each with its default when the parameter is absent or blank. This includes `Integer.parseInt`, `Boolean.parseBoolean` and the two different error behaviours of the page number and the page size.
- **Paging** (`Sort.by`, `PageRequest.of` and the page a repository returns): the 0-based index `pageNumber - 1` with Java's 32-bit wrap-around, the order in which the library rejects its arguments, the slice of a listing a page holds, and the refusal of a page whose offset does not fit in an `int`.
- **Field-error grouping** (`ValidationUtils.getErrorMessages`): field errors folded into a map from field to its messages, in order.
- **Request validation** (`EmitterTypeRequest`, `EmitterOwnerRequest`, `EmitterRequest`): every Bean Validation constraint with its message, except `@NotBlank` on the two `Boolean` fields of `EmitterRequest` (see "## Left out"). The validator reports a set of violations; the model lists them in declaration order, and its contracts promise only which violations occur, never their order.
- **The three services** (`DefaultEmitterTypeService`, `DefaultEmitterOwnerService`, `DefaultEmitterService`): each operation is a pure function from a table (and arguments) to a result and the table after it.
  - A table is a map from generated ids to rows, plus the next id the identity sequence hands out.
  - `save` either writes the row or, when a column constraint is violated, fails. The service turns that failure into CONFLICT.
  - A missing id is NOT_FOUND.
  - Exceptions the code never translates are `Unhandled`.

Errors are values: `Result<T>` is `Ok(value)` or `Err(Failure(status, message))`, and the messages are the exact (Russian) texts the code formats.

Files, in dependency order:

| file | contents |
|---|---|
| `results.dfy` | `Option`, `Status` and `Failure` types, `Result` |
| `text.dfy` | whitespace, `Integer.parseInt`, `%d` formatting, `Boolean.parseBoolean` |
| `page_utils.dfy` | `PageUtils` |
| `paging.dfy` | `PageRequest.of`, `Sort.by`, page slicing |
| `validation.dfy` | constraints, violations, `getErrorMessages` |
| `entities.dfy` | the persisted records and the emitter's not-null columns |
| `requests.dfy` | the three request DTOs' constraints |
| `tables.dfy` | the repository table: find, save target, put, delete, findAll |
| `named_store.dfy` | the unique-name table shared by types and owners |
| `type_service.dfy`, `owner_service.dfy`, `emitter_service.dfy` | the services |

## Model

| member | source | states |
|---|---|---|
| Text.ParseInt | backend/src/main/java/ru/klokov/backend/utils/PageUtils.java:28 | `Integer.parseInt` accepts exactly an optional sign followed by decimal digits whose value lies in the 32-bit range, and returns that value |
| Text.NatDigits | backend/src/main/java/ru/klokov/backend/service/implementation/DefaultEmitterTypeService.java:42 | `%d` of a natural number is a non-empty string of digits with no leading zero |
| Text.NatDigitsRoundTrip | backend/src/main/java/ru/klokov/backend/service/implementation/DefaultEmitterTypeService.java:42 | reading back the digits `%d` prints for a natural number gives that number |
| Text.ShowRoundTrip | backend/src/main/java/ru/klokov/backend/service/implementation/DefaultEmitterTypeService.java:42 | reading back `%d` of any integer, negative ones included, gives that integer |
| Text.ShowEmbedded | backend/src/main/java/ru/klokov/backend/service/implementation/DefaultEmitterTypeService.java:42 | a number formatted between fixed text reads back from between that text |
| Text.ParseIntShow | backend/src/main/java/ru/klokov/backend/utils/PageUtils.java:28 | `parseInt` accepts the decimal form of every 32-bit integer and returns it |
| Text.ParseIntRejectsNonDigit | backend/src/main/java/ru/klokov/backend/utils/PageUtils.java:28-29 | a character other than a digit (or a leading sign) makes `parseInt` fail |
| Text.ParseIntRejectsOutOfRange | backend/src/main/java/ru/klokov/backend/utils/PageUtils.java:28-29 | a number outside the 32-bit range makes `parseInt` fail |
| PageUtils.PageNumber | backend/src/main/java/ru/klokov/backend/utils/PageUtils.java:25-37 | null or blank gives the configured default; otherwise the parsed int, or BAD_REQUEST "Некорректный параметр \"Номер страницы\"" when it does not parse |
| PageUtils.PageSize | backend/src/main/java/ru/klokov/backend/utils/PageUtils.java:39-44 | null or blank gives the default; otherwise the parsed int, or an untranslated `NumberFormatException` |
| PageUtils.SortField | backend/src/main/java/ru/klokov/backend/utils/PageUtils.java:46-51 | a parameter with text is returned as is; otherwise the default field |
| PageUtils.SortDirection | backend/src/main/java/ru/klokov/backend/utils/PageUtils.java:53-58 | a parameter with text is ascending exactly when it equals "true" ignoring case; otherwise the default |
| PageUtils.PageNumberAcceptsEveryInt | backend/src/main/java/ru/klokov/backend/utils/PageUtils.java:25-28 | the decimal form of any 32-bit integer is accepted as that page number, zero and negatives included |
| PageUtils.PageSizeAcceptsEveryInt | backend/src/main/java/ru/klokov/backend/utils/PageUtils.java:39-41 | the decimal form of any 32-bit integer is accepted as that page size |
| PageUtils.MalformedNumbers | backend/src/main/java/ru/klokov/backend/utils/PageUtils.java:25-41 | the same malformed text is BAD_REQUEST for the page number but an unhandled error for the page size |
| PageUtils.BlankParametersUseDefaults | backend/src/main/java/ru/klokov/backend/utils/PageUtils.java:25-58 | all four getters fall back to their defaults on a null or blank parameter |
| PageUtils.DirectionIgnoresCase | backend/src/main/java/ru/klokov/backend/utils/PageUtils.java:53-55 | a parameter with text gives ascending exactly when it has four characters that, with ASCII capitals lowered, spell "true" — `equalsIgnoreCase`, stated letter by letter |
| PageUtils.DirectionExamples | backend/src/main/java/ru/klokov/backend/utils/PageUtils.java:53-55 | "TrUe" is ascending; "false", "yes" and " true" are not |
| PageUtils.PageNumberExamples | backend/src/main/java/ru/klokov/backend/utils/PageUtils.java:25-37 | "0" and "-3" parse; " 2" and 2147483648 are refused; "   " gives the default |
| Paging.Wrap | backend/src/main/java/ru/klokov/backend/service/implementation/DefaultEmitterTypeService.java:51 | Java `int` arithmetic: the result is the only 32-bit value congruent to the exact one modulo 2^32 |
| Paging.PageQuery | backend/src/main/java/ru/klokov/backend/service/implementation/DefaultEmitterTypeService.java:50-51 | succeeds exactly for a sort field with text, a page number of at least 1 (or INT_MIN, which wraps) and a size of at least 1. It requests index `pageNumber - 1`, the given size, and the field in the requested direction. Failures are checked in the order the code builds them: sort property, then index, then size |
| Paging.TotalPages | backend/src/main/java/ru/klokov/backend/service/implementation/DefaultEmitterTypeService.java:53 | the number of pages is the least n with n * size >= total |
| Paging.PageOf | backend/src/main/java/ru/klokov/backend/service/implementation/DefaultEmitterTypeService.java:53 | fails, as an untranslated exception with the library's offset message, exactly when `index * size` exceeds `Integer.MAX_VALUE`. Otherwise page `index` holds exactly min(`size`, items left after `index * size`) items, is non-empty exactly when index < totalPages, and holds the listing's items from `index * size` in order |
| Paging.FindPage | backend/src/main/java/ru/klokov/backend/service/implementation/DefaultEmitterTypeService.java:50-53 | the page query followed by the repository call gives exactly the answer described for the `getXPage` services, for every page number, size and sort: the whole window of min(`size`, records left after the offset) records from the offset on |
| Paging.OffsetFits | backend/src/main/java/ru/klokov/backend/service/implementation/DefaultEmitterTypeService.java:51-53 | a service answers with a page exactly for a positive page number whose offset fits in an `int`, or for INT_MIN (which wraps to index INT_MAX) with pages of one record; for every other page number the wrapped index is `pageNumber - 1` |
| Paging.OversizedPagesFail | backend/src/main/java/ru/klokov/backend/service/implementation/DefaultEmitterTypeService.java:50-53 | page INT_MIN of size 2 and page 300000001 of size 10 fail with the offset message, while page INT_MIN of size 1 is answered |
| Paging.WindowFacts | backend/src/main/java/ru/klokov/backend/service/implementation/DefaultEmitterTypeService.java:53 | the slice behind a page holds min(`size`, records left after the offset) records, is non-empty exactly when the index is below the page count, and holds the listing's records from the offset on |
| Paging.PagesArePrefix | backend/src/main/java/ru/klokov/backend/service/implementation/DefaultEmitterTypeService.java:53 | the first k pages, concatenated, are the first k * size items of the listing |
| Paging.PagesCoverListing | backend/src/main/java/ru/klokov/backend/service/implementation/DefaultEmitterTypeService.java:53 | all pages, concatenated, give back the whole listing: nothing is lost or repeated |
| Paging.FirstPageOfThree | backend/src/main/java/ru/klokov/backend/service/implementation/DefaultEmitterTypeService.java:50-53 | page 1 of size 5 over three records is index 0, one page in total, all three records |
| Paging.WrappedIndexOverflowsOffset | backend/src/main/java/ru/klokov/backend/service/implementation/DefaultEmitterTypeService.java:50-53 | the index INT_MIN wraps to, and page 300000001 of size 10, are accepted as page requests but their offset overflows an `int`, so the repository call fails |
| Paging.IndexWrapsAtIntMin | backend/src/main/java/ru/klokov/backend/service/implementation/DefaultEmitterTypeService.java:51 | page number 0 is refused with the index message, and page number INT_MIN wraps to index INT_MAX and is accepted |
| Validation.ErrorMessages | backend/src/main/java/ru/klokov/backend/utils/ValidationUtils.java:11-20 | the map has a key for exactly the fields with an error; each key maps to that field's messages in the order they were reported, never to an empty list |
| Validation.FieldsSnoc | backend/src/main/java/ru/klokov/backend/utils/ValidationUtils.java:14-16 | the fields of a list of errors are those of all but the last, plus the last one's field |
| Validation.MessagesAbsent | backend/src/main/java/ru/klokov/backend/utils/ValidationUtils.java:14-16 | a field with no error has no messages |
| Validation.DistinctFields | backend/src/main/java/ru/klokov/backend/utils/ValidationUtils.java:11-20 | the fields with an error, each once |
| Validation.CountNamedSnoc | backend/src/main/java/ru/klokov/backend/utils/ValidationUtils.java:14-16 | one more error adds one message to exactly one field |
| Validation.CountNamedAppend | backend/src/main/java/ru/klokov/backend/utils/ValidationUtils.java:14-16 | the count over a list of fields grows by the messages of an added field |
| Validation.CountAll | backend/src/main/java/ru/klokov/backend/utils/ValidationUtils.java:14-16 | every error belongs to exactly one of the distinct fields |
| Validation.TotalIsCount | backend/src/main/java/ru/klokov/backend/utils/ValidationUtils.java:11-20 | a map that agrees with the per-field messages holds as many messages as those fields have errors |
| Validation.MessagesAreConserved | backend/src/main/java/ru/klokov/backend/utils/ValidationUtils.java:11-20 | grouping neither drops nor duplicates a message: the map's lists together hold exactly as many messages as there were errors |
| Validation.GroupingIsDetermined | backend/src/main/java/ru/klokov/backend/utils/ValidationUtils.java:11-20 | any map whose keys are the fields with an error and whose lists are those fields' messages is the grouped map |
| Validation.GroupingExample | backend/src/main/java/ru/klokov/backend/utils/ValidationUtils.java:14-16 | for any two different fields f and g, the errors (f, x), (g, y), (f, z) group as f mapped to [x, z] and g to [y]: each field keeps its messages in the order they arrived |
| Validation.TwoOnOneField | backend/src/main/java/ru/klokov/backend/utils/ValidationUtils.java:14-16 | two errors on one field group as that field mapped to both messages in order |
| Entities.NullableColumns | backend/src/main/java/ru/klokov/backend/model/Emitter.java:42-50 | the 10 Hz and 100 Hz pairs and the type and owner links may be null; the id never matters to the column constraints |
| Entities.RequiredColumns | backend/src/main/java/ru/klokov/backend/model/Emitter.java:22-75 | a null in any `nullable = false` column violates the constraints |
| Requests.NameViolations | backend/src/main/java/ru/klokov/backend/dto/emittertype/EmitterTypeRequest.java:19-21 | `@NotBlank` fails exactly on a null or blank name and `@Size` exactly on a non-null name of the wrong length. Only those two messages can occur, each at most once, so null gives the blank message alone. There are no violations exactly when the name is valid |
| Requests.TypeRequestViolations | backend/src/main/java/ru/klokov/backend/dto/emittertype/EmitterTypeRequest.java:19-21 | a type name needs text and 3..255 characters. The violations are exactly the messages of the failed constraints, each once, and nothing else |
| Requests.OwnerRequestViolations | backend/src/main/java/ru/klokov/backend/dto/emitterowner/EmitterOwnerRequest.java:19-21 | an owner name needs text and 3..50 characters. The violations are exactly the messages of the failed constraints, each once, and nothing else |
| Requests.TypeNameExamples | backend/src/main/java/ru/klokov/backend/dto/emittertype/EmitterTypeRequest.java:19-21 | null and "   " give only the blank message, "12" only the size message, and "Type 1" none |
| Requests.TypeNameBothBroken | backend/src/main/java/ru/klokov/backend/dto/emittertype/EmitterTypeRequest.java:19-21 | a single space draws exactly the blank and the size message, as a multiset |
| Requests.OwnerNameExamples | backend/src/main/java/ru/klokov/backend/dto/emitterowner/EmitterOwnerRequest.java:19-21 | null and "   " give only the blank message, "12" only the size message, "Owner 1" none |
| Requests.OwnerNameGrouped | backend/src/main/java/ru/klokov/backend/utils/ValidationUtils.java:11-20 | a two-space owner name groups under the single key "name", whose list holds exactly the blank message and the size message, in no promised order |
| Requests.TrimmedBlankness | backend/src/main/java/ru/klokov/backend/dto/emittertype/EmitterTypeRequest.java:19-20 | `@NotBlank` trims: three U+0001 characters are not `isBlank` yet draw the blank message, and three ideographic spaces are `isBlank` yet pass |
| Requests.BoundsViolations | backend/src/main/java/ru/klokov/backend/dto/emitter/EmitterRequest.java:34-72 | a missing minimum draws exactly its own field and message, and likewise a missing maximum; nothing else occurs, one violation per missing value, so the pair has no violations exactly when both values are present |
| Requests.MeasurementViolations | backend/src/main/java/ru/klokov/backend/dto/emitter/EmitterRequest.java:34-72 | the violations are exactly the field-and-message of each missing minimum or maximum among the eight pairs, one per missing value; none exactly when every value is present |
| Requests.FactoryNumberViolations | backend/src/main/java/ru/klokov/backend/dto/emitter/EmitterRequest.java:16-18 | the factory number needs text and 2..10 characters. The violations are exactly the messages of the failed constraints, each once, and nothing else |
| Requests.ManufactureDateViolations | backend/src/main/java/ru/klokov/backend/dto/emitter/EmitterRequest.java:20-23 | the date is required and, when present, must be strictly before today (`@Past` accepts null). The violations are exactly the messages of the failed constraints, each once, and nothing else |
| Requests.EmitterRequestViolations | backend/src/main/java/ru/klokov/backend/dto/emitter/EmitterRequest.java:15-79 | the violations are exactly those of the reference predicate `Violates`: each field with its own message when its constraint fails (factory number, date, periodicity, the sixteen measurements, type and owner). There is one violation per broken constraint, and none exactly when the request satisfies `ValidEmitterRequest` |
| Requests.ValidityIgnoresGenerator | backend/src/main/java/ru/klokov/backend/dto/emitter/EmitterRequest.java:31-52 | whether a request is valid does not depend on the internal-generator flag, and all six frequency fields are required |
| Requests.BoundsAreUnordered | backend/src/main/java/ru/klokov/backend/dto/emitter/EmitterRequest.java:34-72 | no constraint relates a minimum to its maximum, or looks at a measurement's value: two requests that differ only in their eight measurement pairs, with the same values present in each, are both valid or both invalid |
| Requests.ToEmitter | backend/src/main/java/ru/klokov/backend/model/Emitter.java:17-20 | a record made from a request carries no id; the store assigns one |
| Requests.ValidRequestFitsColumns | backend/src/main/java/ru/klokov/backend/model/Emitter.java:22-75 | a valid request fills every not-null column exactly when both flags are present |
| Tables.Find | backend/src/main/java/ru/klokov/backend/service/implementation/DefaultEmitterTypeService.java:39 | `findById` finds exactly the ids in the table |
| Tables.SaveTarget | backend/src/main/java/ru/klokov/backend/model/Emitter.java:17-20 | `save` writes to the record's own id when that row exists, and otherwise to a fresh id from the identity sequence, never to one in use |
| Tables.Put | backend/src/main/java/ru/klokov/backend/service/implementation/DefaultEmitterTypeService.java:61 | a save changes exactly one row and keeps every id one the sequence handed out |
| Tables.Remove | backend/src/main/java/ru/klokov/backend/service/implementation/DefaultEmitterTypeService.java:101 | `deleteById` removes exactly that row |
| Tables.IdsBetween | backend/src/main/java/ru/klokov/backend/service/implementation/DefaultEmitterTypeService.java:32 | exactly the ids in use in a range, strictly ascending |
| Tables.FindAll | backend/src/main/java/ru/klokov/backend/service/implementation/DefaultEmitterTypeService.java:32 | `findAll` lists every row of the table and nothing else, in id order |
| NamedStore.Save | backend/src/main/java/ru/klokov/backend/service/implementation/DefaultEmitterTypeService.java:61 | a save that breaks no constraint keeps names non-null and unique and ids equal to keys |
| NamedStore.ListAll | backend/src/main/java/ru/klokov/backend/service/implementation/DefaultEmitterTypeService.java:32 | on a consistent table, every record exactly once, by ascending id |
| TypeService.NotFoundMessageNamesId | backend/src/main/java/ru/klokov/backend/service/implementation/DefaultEmitterTypeService.java:42 | the NOT_FOUND message carries the requested id, readable back from it |
| TypeService.GetAllEmitterTypes | backend/src/main/java/ru/klokov/backend/service/implementation/DefaultEmitterTypeService.java:29-33 | exactly the stored types, each once, by ascending id |
| TypeService.GetEmitterTypeById | backend/src/main/java/ru/klokov/backend/service/implementation/DefaultEmitterTypeService.java:36-44 | the stored record when the id exists, otherwise NOT_FOUND naming the id |
| TypeService.GetEmitterTypesPage | backend/src/main/java/ru/klokov/backend/service/implementation/DefaultEmitterTypeService.java:47-54 | answers with the page of the listing (the table's rows in the requested sort order) at the wrapped index `pageNumber - 1`, in the requested sort, or fails as an untranslated exception. It succeeds exactly when the sort field has text, the size is at least 1, the wrapped index is not negative and its offset `index * size` fits in an `int`; a failure that passes the first three checks carries the offset message. The page holds exactly min(`size`, records left after the offset) records, the listing's records from the offset on, in order, and reports the listing's page count |
| TypeService.CreateEmitterType | backend/src/main/java/ru/klokov/backend/service/implementation/DefaultEmitterTypeService.java:57-68 | fails exactly when the name is null or held by another row, as CONFLICT naming the attempted name with the table unchanged; otherwise exactly one row is written under a fresh id with that name; the table stays consistent |
| TypeService.UpdateEmitterType | backend/src/main/java/ru/klokov/backend/service/implementation/DefaultEmitterTypeService.java:71-89 | an absent id is NOT_FOUND with no save. Otherwise the update fails exactly when the new name is null or held by another row (CONFLICT, table unchanged). On success only that row changes, to its id and the new name |
| TypeService.DeleteEmitterType | backend/src/main/java/ru/klokov/backend/service/implementation/DefaultEmitterTypeService.java:92-102 | an absent id is NOT_FOUND; a present one removes exactly that row |
| TypeService.CreateThenGet | backend/src/main/java/ru/klokov/backend/service/implementation/DefaultEmitterTypeService.java:57-61 | a created type is found under its new id |
| TypeService.DuplicateNameConflicts | backend/src/main/java/ru/klokov/backend/service/implementation/DefaultEmitterTypeService.java:60-66 | a new type with a name already in use gets CONFLICT and the table is unchanged |
| TypeService.UpdateToOwnNameSucceeds | backend/src/main/java/ru/klokov/backend/service/implementation/DefaultEmitterTypeService.java:80-83 | renaming a type to its own name is not a conflict and changes nothing |
| TypeService.UpdateThenGet | backend/src/main/java/ru/klokov/backend/service/implementation/DefaultEmitterTypeService.java:71-89 | after an update the type reads back with its id and the new name |
| TypeService.DeleteThenGet | backend/src/main/java/ru/klokov/backend/service/implementation/DefaultEmitterTypeService.java:92-102 | after a delete that id is NOT_FOUND and every other id reads as before |
| OwnerService.NotFoundMessageNamesId | backend/src/main/java/ru/klokov/backend/service/implementation/DefaultEmitterOwnerService.java:45 | the NOT_FOUND message carries the requested id |
| OwnerService.GetAllOwners | backend/src/main/java/ru/klokov/backend/service/implementation/DefaultEmitterOwnerService.java:33-35 | exactly the stored owners, each once, by ascending id |
| OwnerService.GetOwnerById | backend/src/main/java/ru/klokov/backend/service/implementation/DefaultEmitterOwnerService.java:38-47 | the stored record when the id exists, otherwise NOT_FOUND naming the id |
| OwnerService.GetOwnersPage | backend/src/main/java/ru/klokov/backend/service/implementation/DefaultEmitterOwnerService.java:50-59 | answers with the page of the listing (the table's rows in the requested sort order) at the wrapped index `pageNumber - 1`, in the requested sort, or fails as an untranslated exception. It succeeds exactly when the sort field has text, the size is at least 1, the wrapped index is not negative and its offset `index * size` fits in an `int`; a failure that passes the first three checks carries the offset message. The page holds exactly min(`size`, records left after the offset) records, the listing's records from the offset on, in order, and reports the listing's page count |
| OwnerService.CreateOwner | backend/src/main/java/ru/klokov/backend/service/implementation/DefaultEmitterOwnerService.java:62-75 | fails exactly when the name is null or held by another row, as CONFLICT naming the owner's name with the table unchanged; otherwise exactly one row is written with that name |
| OwnerService.UpdateOwner | backend/src/main/java/ru/klokov/backend/service/implementation/DefaultEmitterOwnerService.java:78-92 | an absent id is NOT_FOUND with the table unchanged. Otherwise it saves again through `createOwner`, so a duplicate name is the same CONFLICT. On success only that row changes, to its id and the new name |
| OwnerService.DeleteOwner | backend/src/main/java/ru/klokov/backend/service/implementation/DefaultEmitterOwnerService.java:95-107 | an absent id is NOT_FOUND; a present one removes exactly that row |
| OwnerService.CreateOwnerOutcomes | backend/src/main/java/ru/klokov/backend/service/implementation/DefaultEmitterOwnerService.java:62-75 | a new owner with a name in use gets CONFLICT with the table unchanged; a created owner is found under its new id |
| OwnerService.UpdateAndDeleteThenGet | backend/src/main/java/ru/klokov/backend/service/implementation/DefaultEmitterOwnerService.java:78-107 | an updated owner reads back with its id and new name; a deleted one is NOT_FOUND |
| OwnerService.OwnerUpdateMatchesTypeUpdate | backend/src/main/java/ru/klokov/backend/service/implementation/DefaultEmitterOwnerService.java:78-92 | updating through `createOwner` behaves exactly as the type service's direct save: same success, same record, same table |
| EmitterService.NotFoundMessageNamesId | backend/src/main/java/ru/klokov/backend/service/implementation/DefaultEmitterService.java:35 | the NOT_FOUND message carries the requested id |
| EmitterService.GetAllEmitters | backend/src/main/java/ru/klokov/backend/service/implementation/DefaultEmitterService.java:26-28 | exactly the stored emitters, each once, by ascending id |
| EmitterService.GetEmitterById | backend/src/main/java/ru/klokov/backend/service/implementation/DefaultEmitterService.java:31-37 | the stored record when the id exists, otherwise NOT_FOUND naming the id |
| EmitterService.GetEmittersPage | backend/src/main/java/ru/klokov/backend/service/implementation/DefaultEmitterService.java:40-45 | answers with the page of the listing (the table's rows in the requested sort order) at the wrapped index `pageNumber - 1`, in the requested sort, or fails as an untranslated exception. It succeeds exactly when the sort field has text, the size is at least 1, the wrapped index is not negative and its offset `index * size` fits in an `int`; a failure that passes the first three checks carries the offset message. The page holds exactly min(`size`, records left after the offset) records, the listing's records from the offset on, in order, and reports the listing's page count |
| EmitterService.CreateEmitter | backend/src/main/java/ru/klokov/backend/service/implementation/DefaultEmitterService.java:48-57 | fails exactly when a not-null column is null, as CONFLICT naming the factory number with the table unchanged. Otherwise one row is written with every field of the argument, under a fresh id (or under the argument's own id when that row exists) |
| EmitterService.UpdateEmitter | backend/src/main/java/ru/klokov/backend/service/implementation/DefaultEmitterService.java:60-104 | an absent id is NOT_FOUND with the table unchanged. Otherwise every column of the argument, links included, is copied onto the row and saved through `createEmitter`, so a missing column is the same CONFLICT. On success that row equals the argument apart from keeping its id, and no other row changes |
| EmitterService.DeleteEmitter | backend/src/main/java/ru/klokov/backend/service/implementation/DefaultEmitterService.java:107-115 | an absent id is NOT_FOUND; a present one removes exactly that row |
| EmitterService.DuplicateFactoryNumberAllowed | backend/src/main/java/ru/klokov/backend/model/Emitter.java:22-23 | the factory number is not unique: a second emitter with the same number is stored under a new id |
| EmitterService.IncompleteEmitterConflicts | backend/src/main/java/ru/klokov/backend/service/implementation/DefaultEmitterService.java:48-57 | a missing manufacture date makes both create and update fail with the factory-number CONFLICT |
| EmitterService.UpdateThenGet | backend/src/main/java/ru/klokov/backend/service/implementation/DefaultEmitterService.java:60-104 | after an update the emitter reads back as the argument with the updated id |
| EmitterService.DeleteThenGet | backend/src/main/java/ru/klokov/backend/service/implementation/DefaultEmitterService.java:107-115 | after a delete that id is NOT_FOUND and every other id reads as before |

## Left out

- The React frontend, the REST controllers and ModelMapper: they are I/O and reflection glue. The controllers' choice of which field error to show, and their 0-based page number in responses, are not modelled.
- `GlobalExceptionHandler` and the exception classes: errors are `Result` values with a status. The mapping of an `ApiException` or `ServerException` to an HTTP response is not modelled.
- Logging and the `Instant.now()` timestamps carried by the exceptions.
- The unused `pageSize` field of the owner service.
- The service interfaces, and the mismatches between their method names and the controllers.
- The internal-generator rule for pulse frequencies: no shown code implements it. The model states only what the constraints say (`Requests.ValidityIgnoresGenerator`).
- `@NotBlank` on the two `Boolean` fields of `EmitterRequest`: Bean Validation has no validator for that pairing and fails at validation time. The model gives those fields no constraint.
- Requests.EmitterRequestViolations: in the program, validating any `EmitterRequest` throws `UnexpectedTypeException` because of the `@NotBlank` on the two `Boolean` fields, so no violation list is ever produced for it. The member describes the list the other constraints would give, which is what the declarations state.
- Whitespace follows `Character.isWhitespace`, which `String.isBlank` and `StringUtils.hasText` use; `@NotBlank` instead trims every character up to U+0020. Both are modelled, and `Requests.TrimmedBlankness` shows where they differ.
- Text.ParseInt: accepts ASCII digits only, not the other Unicode decimal digits `Character.digit` accepts.
- Requests.TypeRequestViolations, Requests.OwnerRequestViolations, Requests.EmitterRequestViolations: the validator returns an unordered set, so no order of violations is promised. The model's lists follow declaration order, but only which violations occur is stated.
- Requests.NameViolations: lengths are counted in `char`s of a Dafny string, not UTF-16 code units; they differ only outside the Basic Multilingual Plane.
- `Double` values: only whether a measurement is null matters, so a measurement is a `real` whose value no contract reads.
- The database's sort order for `findAll(pageable)`, and the `PropertyReferenceException` for an unknown sort field. The sort is carried in the page request, and the `getXPage` services and `Paging.PageOf` slice a listing given to them in that order. Nothing relates that listing to the table's rows.
- Paging.PageOf: follows Spring Data JPA 3, which refuses an offset above `Integer.MAX_VALUE`. Older versions truncate the offset to an `int` instead. The build file is not part of this model, so the version is assumed.
- Tables.FindAll: lists rows by ascending id; the database promises no order.
- Foreign keys: an emitter holds its type and owner as ids. Neither a link to a missing row nor the deletion of a type or owner still referenced by an emitter is modelled.
- Tables.SaveTarget: a caller-supplied id with no row behind it is treated as a new row under a fresh id.
- Tables.Put: on a failed insert the identity sequence does not advance, although PostgreSQL may consume a value.
- Date formats (`@DateTimeFormat`) and JSON binding. A date is a day number; `today` is a parameter.
