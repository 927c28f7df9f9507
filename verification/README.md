# Delivery service and email service core, modelled in Dafny

This project models the decision logic of a cargo delivery backend and of
its companion email service. The model covers five parts:

- **Bulk JSON import.** Each uploaded file is scanned into a list of cargos, or the whole file fails. Each list is saved cargo by cargo into a tally of successful and failed imports. The tallies of the completed files are summed, and the controller turns the sum into an HTTP answer.
- **Search filters.** A registry of specification providers is looked up by key. The "status" and "type" providers are the two that exist. A builder ANDs the specification of every supplied search field onto an unrestricted one.
- **Delivery statuses.** The six constants and their display names. A display name maps back to its constant; any other string is an error.
- **Email delivery.** A message is sent once and stored as SENT or ERROR. A periodic pass re-sends every ERROR email and bumps its attempt count.
- **Request validation.** The Bean Validation constraints of the three request records, as validators that return the set of violations.

Modules, one per file:

- `Wrappers` (`wrappers.dfy`): Option, Result and Outcome.
- `DeliveryStatuses` (`delivery_status.dfy`) and `Entities` (`entities.dfy`): the entities and enumerations.
- `JsonReader` (`json_reader.dfy`): the token-stream scan of one file.
- `JsonProcessing` (`json_processing.dfy`): per-file accounting and batch totals.
- `CargoFilter` (`cargo_filter.dfy`): providers, the registry and the builder.
- `CargoController` (`cargo_controller.dfy`): the upload answer and the page conversion.
- `EmailService` (`email_service.dfy`): the email state machine.
- `RequestValidation` (`request_validation.dfy`): the request validators.

The environment becomes parameters:

- The Jackson tokenizer becomes a token sequence in which `Invalid` stands for a tokenizer error.
- The object mapper becomes a `Decoder` from the tokens of one object to an optional cargo.
- The repository save becomes a `SaveOracle` that either stores a cargo or raises with a message.
- The report write becomes an `Outcome`.
- The mail sender becomes a `SendOutcome`: delivered, or an exception's simple class name and message.
- `Instant.now()` becomes an integer instant: one reading for a new message, and one reading per email in a retry pass.
- The `@Email` address check becomes a predicate parameter.

A JPA `Specification` is the predicate `Cargo -> bool` it denotes. Both enumerations are stored by their identifiers (`@Enumerated(EnumType.STRING)`), so the SQL `IN` becomes membership of the constant's identifier in the value list.

The thread pool is replaced by running the per-file tasks one after another, in submission order. The source collects the futures in that same order and drops those that raised. The tasks share no state, because the save oracle is stateless, so the order of execution does not affect any tally.

A single object that fails to decode aborts its whole file: `readValue` throws an `IOException`, and that exception ends the scan loop. It does not skip the object and count it as a failure.

Some helpers carry the source's constants and semantics without a row of their own:

- `JsonReader.InvalidFileMessage` is the file error message (app/deliveryservice/src/main/java/org/varukha/deliveryservice/service/io/impl/JsonReaderServiceImpl.java:47-48).
- `DeliveryStatuses.StatusName` is the display-name table (app/deliveryservice/src/main/java/org/varukha/deliveryservice/model/enums/DeliveryStatus.java:10-15).
- `CargoFilter.StatusIn` and `CargoFilter.VehicleTypeIn` are the two providers' specifications (app/deliveryservice/src/main/java/org/varukha/deliveryservice/repository/filter/spec/CargoStatusSpecificationProvider.java:32-35 and app/deliveryservice/src/main/java/org/varukha/deliveryservice/repository/filter/spec/VehicleTypeSpecificationProvider.java:35-38); `CargoFilter.StatusFilterProperties` and `CargoFilter.VehicleTypeFilterProperties` state what they mean.
- `RequestValidation.NotBlank`, `RequestValidation.MatchesAlphanumeric` and `RequestValidation.AtMost` are the `@NotBlank`, `@Pattern(regexp = "^[A-Za-z0-9]+$")` and `@Size(max = ...)` checks.

The lemmas about these helpers and the validators' contracts state what they mean.

## Model

| member | source | states |
|---|---|---|
| JsonReader.ObjectEnd | app/deliveryservice/src/main/java/org/varukha/deliveryservice/service/io/impl/JsonReaderServiceImpl.java:41 | When the mapper's read of an object ends, it ends after the object's start and on that object's closing brace. |
| JsonReader.Scan | app/deliveryservice/src/main/java/org/varukha/deliveryservice/service/io/impl/JsonReaderServiceImpl.java:37-43 | Every cargo in a successful scan accounts for at least the two tokens of its object, so a file yields at most half as many cargos as it has tokens. |
| JsonReader.ScanRejectsInvalid | app/deliveryservice/src/main/java/org/varukha/deliveryservice/service/io/impl/JsonReaderServiceImpl.java:37-43 | A tokenizer error anywhere from the start position on fails the scan, whether it sits inside an object or between objects. |
| JsonReader.LoadJsonFile | app/deliveryservice/src/main/java/org/varukha/deliveryservice/service/io/impl/JsonReaderServiceImpl.java:36-51 | The method's loop returns the list exactly when the scan of the whole token stream succeeds, and the list is the scan's result. On any tokenizer or decode error it fails with "Error: The specified file <name> is not a valid JSON file." and returns no partial list. |
| JsonReader.DecodeAll | app/deliveryservice/src/main/java/org/varukha/deliveryservice/service/io/impl/JsonReaderServiceImpl.java:41-42 | The reference decoding of a list of objects: it succeeds exactly when every object decodes, and then gives one cargo per object, each equal to that object's decoding, in order. |
| JsonReader.ObjectEndOfWellFormed | app/deliveryservice/src/main/java/org/varukha/deliveryservice/service/io/impl/JsonReaderServiceImpl.java:41 | A read started inside a well-formed object stops exactly at that object's last token, whatever surrounds it. |
| JsonReader.ScanConcat | app/deliveryservice/src/main/java/org/varukha/deliveryservice/service/io/impl/JsonReaderServiceImpl.java:39-43 | Scanning consecutive well-formed objects up to the closing bracket gives the reference decoding of those objects. |
| JsonReader.ArrayOfObjectsRoundTrip | app/deliveryservice/src/main/java/org/varukha/deliveryservice/service/io/impl/JsonReaderServiceImpl.java:39-43 | For a JSON array of N well-formed objects, the scan gives exactly N cargos, one per object, in stream order. It fails exactly when some object fails to decode. |
| JsonReader.SkipPlainTokens | app/deliveryservice/src/main/java/org/varukha/deliveryservice/service/io/impl/JsonReaderServiceImpl.java:40 | Valid tokens at scan level other than START_OBJECT add nothing to the list. |
| JsonReader.NoObjectsYieldsEmptyList | app/deliveryservice/src/main/java/org/varukha/deliveryservice/service/io/impl/JsonReaderServiceImpl.java:37-50 | A valid stream without objects yields an empty list, not an error. |
| JsonReader.TokenizerErrorFailsFile | app/deliveryservice/src/main/java/org/varukha/deliveryservice/service/io/impl/JsonReaderServiceImpl.java:38-49 | A tokenizer error reached at scan level fails the whole file, whatever follows it. |
| JsonProcessing.TotalAppend | app/deliveryservice/src/main/java/org/varukha/deliveryservice/service/io/impl/JsonDataProcessingServiceImpl.java:124-133 | The sum of the tallies of two lists put together is the sum of the two lists' sums. |
| JsonProcessing.TotalPermutation | app/deliveryservice/src/main/java/org/varukha/deliveryservice/service/io/impl/JsonDataProcessingServiceImpl.java:124-133 | A componentwise sum is the same for any two lists with the same multiset of elements. |
| JsonProcessing.CalculateTotalImports | app/deliveryservice/src/main/java/org/varukha/deliveryservice/service/io/impl/JsonDataProcessingServiceImpl.java:124-133 | The loop returns the componentwise sum of the per-file tallies, for successful and for failed imports. |
| JsonProcessing.TotalsIndependentOfOrder | app/deliveryservice/src/main/java/org/varukha/deliveryservice/service/io/impl/JsonDataProcessingServiceImpl.java:124-133 | The totals are the same for any permutation of the per-file tallies. |
| JsonProcessing.WithVehicle | app/deliveryservice/src/main/java/org/varukha/deliveryservice/service/io/impl/JsonDataProcessingServiceImpl.java:146 | The cargos kept are exactly those of the list that have a vehicle, and the result is no longer than the list. |
| JsonProcessing.WithVehicleCounts | app/deliveryservice/src/main/java/org/varukha/deliveryservice/service/io/impl/JsonDataProcessingServiceImpl.java:144-150 | Each cargo with a vehicle is kept as many times as it occurs, and a cargo without one is never kept, so every save is counted. |
| JsonProcessing.WithVehicleAppend | app/deliveryservice/src/main/java/org/varukha/deliveryservice/service/io/impl/JsonDataProcessingServiceImpl.java:144-150 | The filter keeps list order: filtering two lists put together gives the two filtered lists put together. |
| JsonProcessing.FirstRejected | app/deliveryservice/src/main/java/org/varukha/deliveryservice/service/io/impl/JsonDataProcessingServiceImpl.java:144-159 | Gives the position of the first cargo that has a vehicle and whose save raises, or the list length when there is none. Every cargo with a vehicle before that position saves without error. |
| JsonProcessing.ProcessCargoList | app/deliveryservice/src/main/java/org/varukha/deliveryservice/service/io/impl/JsonDataProcessingServiceImpl.java:141-162 | Stores the cargos with a vehicle, in order, up to the first save that raises. It returns a tally exactly when no save raises, and that tally is (cargos with a vehicle, cargos without one). Otherwise it fails with "Error saving cargo data: " followed by the save's message, and the earlier saves stay stored. |
| JsonProcessing.FileConservation | app/deliveryservice/src/main/java/org/varukha/deliveryservice/service/io/impl/JsonDataProcessingServiceImpl.java:141-161 | When a file completes, its successful plus failed imports equal the number of cargos in its list, and its successful imports equal the number of cargos it stored. |
| JsonProcessing.RunFile | app/deliveryservice/src/main/java/org/varukha/deliveryservice/service/io/impl/JsonDataProcessingServiceImpl.java:76-79 | A completed task counts every cargo read from its file exactly once. A file that fails to parse stores nothing and fails with the reader's message. |
| JsonProcessing.ProcessFiles | app/deliveryservice/src/main/java/org/varukha/deliveryservice/service/io/impl/JsonDataProcessingServiceImpl.java:74-80 | Runs one task per file, in submission order, and each task depends only on its own file. |
| JsonProcessing.Gather | app/deliveryservice/src/main/java/org/varukha/deliveryservice/service/io/impl/JsonDataProcessingServiceImpl.java:81-89 | Collects at most one tally per task, and every tally collected is the result of a task that completed. |
| JsonProcessing.GatherAppend | app/deliveryservice/src/main/java/org/varukha/deliveryservice/service/io/impl/JsonDataProcessingServiceImpl.java:82-88 | The tallies are collected in submission order: collecting over two batches put together gives the two collections put together. |
| JsonProcessing.ProcessFilesAppend | app/deliveryservice/src/main/java/org/varukha/deliveryservice/service/io/impl/JsonDataProcessingServiceImpl.java:74-80 | The tasks of two batches of files put together are the two batches' tasks put together. |
| JsonProcessing.FailedFileContributesNothing | app/deliveryservice/src/main/java/org/varukha/deliveryservice/service/io/impl/JsonDataProcessingServiceImpl.java:82-88 | Inserting a file whose task fails, by a parse error or a save error, anywhere in the batch leaves the collected tallies unchanged. |
| JsonProcessing.GatherTotal | app/deliveryservice/src/main/java/org/varukha/deliveryservice/service/io/impl/JsonDataProcessingServiceImpl.java:82-88 | The sum of the collected tallies is the sum over all tasks of the task's tally, where a failed task adds {0, 0}. |
| JsonProcessing.ProcessFilesTotal | app/deliveryservice/src/main/java/org/varukha/deliveryservice/service/io/impl/JsonDataProcessingServiceImpl.java:74-88 | The sum over the tasks is the sum over the files of what each file's task adds. |
| JsonProcessing.FileOrderIrrelevant | app/deliveryservice/src/main/java/org/varukha/deliveryservice/service/io/impl/JsonDataProcessingServiceImpl.java:74-89 | Submitting the same files in any order gives the same batch totals. |
| JsonProcessing.CompletedSavesBound | app/deliveryservice/src/main/java/org/varukha/deliveryservice/service/io/impl/JsonDataProcessingServiceImpl.java:144-150 | The cargos stored by completed files are at most all the cargos the batch stored. |
| JsonProcessing.ContributionOfFile | app/deliveryservice/src/main/java/org/varukha/deliveryservice/service/io/impl/JsonDataProcessingServiceImpl.java:76-88 | A file adds all of its records, and all the cargos it stored as imports, when its task completes, and nothing when it fails. |
| JsonProcessing.BatchConservation | app/deliveryservice/src/main/java/org/varukha/deliveryservice/service/io/impl/JsonDataProcessingServiceImpl.java:52-53 | The summed tallies count every cargo of every completed file exactly once. The successful imports are exactly the cargos the completed files stored. |
| JsonProcessing.UploadResult | app/deliveryservice/src/main/java/org/varukha/deliveryservice/service/io/impl/JsonDataProcessingServiceImpl.java:49-60 | If processing raises, the result is {0, 0}. Otherwise it is the sum of the collected tallies, whether or not the report write succeeds. |
| JsonProcessing.ReportFailureKeepsTotals | app/deliveryservice/src/main/java/org/varukha/deliveryservice/service/io/impl/JsonDataProcessingServiceImpl.java:50-59 | A failed report write returns the same totals as a successful one. A processing failure returns {0, 0}. |
| JsonProcessing.UploadFromJson | app/deliveryservice/src/main/java/org/varukha/deliveryservice/service/io/impl/JsonDataProcessingServiceImpl.java:48-60 | The returned totals are the sum of the tallies collected from the completed files. The successful imports are exactly the cargos saved by those files, so they never exceed the cargos stored. Successful plus failed imports equal the cargos read from the files that completed. |
| JsonProcessing.TwoFileScenario | app/deliveryservice/src/main/java/org/varukha/deliveryservice/service/io/impl/JsonDataProcessingServiceImpl.java:49-60 | Take one file with twelve cargos, ten of them with a vehicle, and one malformed file. The batch reports 10 imports and 2 failures. |
| CargoController.RespondToUpload | app/deliveryservice/src/main/java/org/varukha/deliveryservice/controller/CargoController.java:99-111 | The answer is OK exactly when at least one cargo was imported, and then carries both counts unchanged. Otherwise it is EXPECTATION_FAILED with a null body, whatever the failure count. |
| CargoController.UploadJsonFile | app/deliveryservice/src/main/java/org/varukha/deliveryservice/controller/CargoController.java:97-112 | An empty file list is refused as a bad request. A non-empty batch is answered OK exactly when the import reports at least one success, which is exactly when some file that completed saved a cargo. The body of an OK is the import totals. Otherwise the answer is EXPECTATION_FAILED with a null body. |
| CargoController.EmptyBatchNeverOk | app/deliveryservice/src/main/java/org/varukha/deliveryservice/controller/CargoController.java:98-111 | Even without the non-empty check, an empty batch would be answered EXPECTATION_FAILED. |
| CargoController.WrapInt32 | app/deliveryservice/src/main/java/org/varukha/deliveryservice/controller/CargoController.java:89 | Java int arithmetic: the result is in the 32-bit range, congruent to the exact value modulo 2^32, and equal to it when the exact value is in range. |
| CargoController.PageRequestOf | app/deliveryservice/src/main/java/org/varukha/deliveryservice/controller/CargoController.java:89 | A page request is built exactly when the index is at least 0 and the size at least 1. A negative index is reported first. |
| CargoController.ToPageRequestAsWritten | app/deliveryservice/src/main/java/org/varukha/deliveryservice/controller/CargoController.java:89 | As written: above Integer.MIN_VALUE a page request is formed exactly for page >= 1 and size >= 1. At Integer.MIN_VALUE it is formed for every size >= 1. The page number plus one equals the page modulo 2^32, and the size passes through. |
| CargoController.MinPageWrapsAround | app/deliveryservice/src/main/java/org/varukha/deliveryservice/controller/CargoController.java:86-89 | As written, page = Integer.MIN_VALUE wraps to the largest page index and is accepted. |
| CargoController.ToPageRequest | app/deliveryservice/src/main/java/org/varukha/deliveryservice/controller/CargoController.java:86-89 | The corrected conversion accepts exactly page >= 1 and size >= 1. The 0-based index plus one is the requested page, and the size passes through. |
| CargoController.AsWrittenAgreesAboveMin | app/deliveryservice/src/main/java/org/varukha/deliveryservice/controller/CargoController.java:86-89 | The conversion as written and the corrected one agree on every page above Integer.MIN_VALUE. |
| CargoController.DefaultPageRequest | app/deliveryservice/src/main/java/org/varukha/deliveryservice/controller/CargoController.java:86-87 | The defaults, page 1 and size 10, ask for index 0 with size 10. |
| CargoController.GetCargoList | app/deliveryservice/src/main/java/org/varukha/deliveryservice/controller/CargoController.java:86-91 | Built on the corrected conversion: the query is formed exactly for page >= 1 and size >= 1. Its page request is (page - 1, size), and its filter matches a cargo exactly when the cargo passes every supplied filter. |
| CargoFilter.KeyIdentifiesProvider | app/deliveryservice/src/main/java/org/varukha/deliveryservice/repository/filter/impl/CargoSpecificationBuilder.java:19-20 | The two providers have different keys, so a key identifies its provider. |
| CargoFilter.GetSpecificationProvider | app/deliveryservice/src/main/java/org/varukha/deliveryservice/repository/filter/impl/CargoSpecificationProviderManager.java:29-36 | The lookup succeeds exactly when some registered provider's key equals the key, and then returns a registered provider with that key. Otherwise it fails with "Can't find correct specification provider for key: " followed by the key. |
| CargoFilter.RegisteredKeys | app/deliveryservice/src/main/java/org/varukha/deliveryservice/repository/filter/impl/CargoSpecificationProviderManager.java:30-35 | Among the registered providers, exactly "status" and "type" resolve, each to its own provider. The lookup is case-sensitive, so "Status" fails. |
| CargoFilter.GetCargoSpecification | app/deliveryservice/src/main/java/org/varukha/deliveryservice/repository/filter/impl/CargoSpecificationBuilder.java:46-54 | A null or empty array leaves the specification as it is. A supplied array succeeds exactly when its key resolves, and the result is then the old specification AND the provider's filter. A failed lookup fails with the lookup's message. |
| CargoFilter.Build | app/deliveryservice/src/main/java/org/varukha/deliveryservice/repository/filter/impl/CargoSpecificationBuilder.java:31-36 | The build succeeds exactly when the key of each supplied field resolves, and then matches a cargo exactly when both supplied filters hold. A failure reports the status key when that key fails to resolve, and the type key otherwise. |
| CargoFilter.ApplyFieldsMeaning | app/deliveryservice/src/main/java/org/varukha/deliveryservice/repository/filter/impl/CargoSpecificationBuilder.java:46-54 | Applying the fields succeeds exactly when every supplied field's key resolves. The result then matches a cargo exactly when the cargo passes the start specification and every supplied field's filter. A failure names an unresolved key. |
| CargoFilter.EmptyRequestMatchesAll | app/deliveryservice/src/main/java/org/varukha/deliveryservice/repository/filter/impl/CargoSpecificationBuilder.java:31-36 | A request whose arrays are all null or empty builds successfully and matches every cargo, with any registry. |
| CargoFilter.BuildMeaning | app/deliveryservice/src/main/java/org/varukha/deliveryservice/repository/filter/impl/CargoSpecificationBuilder.java:31-36 | With the registered providers the build always succeeds. A cargo matches exactly when it passes the status filter (if statuses are given) and the vehicle-type filter (if types are given). |
| CargoFilter.UnknownKeyFailsBuild | app/deliveryservice/src/main/java/org/varukha/deliveryservice/repository/filter/impl/CargoSpecificationBuilder.java:49-52 | A supplied field whose key no provider has makes the build fail rather than match nothing. |
| CargoFilter.FieldOrderIrrelevant | app/deliveryservice/src/main/java/org/varukha/deliveryservice/repository/filter/impl/CargoSpecificationBuilder.java:33-34 | Two orderings of the same fields both succeed or both fail, and on success they match the same cargos. |
| CargoFilter.BuildCommutes | app/deliveryservice/src/main/java/org/varukha/deliveryservice/repository/filter/impl/CargoSpecificationBuilder.java:31-36 | Applying type before status gives the same outcome and the same matches as the build. |
| CargoFilter.StatusFilterProperties | app/deliveryservice/src/main/java/org/varukha/deliveryservice/repository/filter/spec/CargoStatusSpecificationProvider.java:32-35 | The status filter is an "any of": the values combine by OR, duplicates and order do not matter, and only the cargo's status is inspected. |
| CargoFilter.VehicleTypeFilterProperties | app/deliveryservice/src/main/java/org/varukha/deliveryservice/repository/filter/spec/VehicleTypeSpecificationProvider.java:35-38 | A cargo without a vehicle never matches. The values combine by OR, and only the cargo's vehicle is inspected. |
| DeliveryStatuses.AllStatusesComplete | app/deliveryservice/src/main/java/org/varukha/deliveryservice/model/enums/DeliveryStatus.java:10-15 | Every constant is among the values the lookup scans. |
| DeliveryStatuses.StatusNamesDistinct | app/deliveryservice/src/main/java/org/varukha/deliveryservice/model/enums/DeliveryStatus.java:10-15 | No two constants share a display name. |
| DeliveryStatuses.FindByStatusName | app/deliveryservice/src/main/java/org/varukha/deliveryservice/model/enums/DeliveryStatus.java:24-28 | A constant found by the scan is among the scanned values and has that display name. When nothing is found, no scanned value has it. |
| DeliveryStatuses.ConvertToDeliveryStatus | app/deliveryservice/src/main/java/org/varukha/deliveryservice/model/enums/DeliveryStatus.java:23-30 | Succeeds exactly when some constant's display name equals the string, and returns a constant with that name. Otherwise it fails with "Invalid delivery status: " followed by the string. |
| DeliveryStatuses.ConvertRoundTrip | app/deliveryservice/src/main/java/org/varukha/deliveryservice/model/enums/DeliveryStatus.java:23-30 | Every constant is recovered from its own display name. |
| DeliveryStatuses.IdentifiersAndOtherCasingsRejected | app/deliveryservice/src/main/java/org/varukha/deliveryservice/model/enums/DeliveryStatus.java:23-29 | The identifiers "DELIVERED" and "IN_TRANSIT" and the casing "delivered" are rejected, while "Delivered" is accepted. |
| EmailService.ToModel | app/emailservice/src/main/java/com/varukha/emailservice/model/Email.java:35 | A new email copies the message's recipient, subject and content. It has no status, error or attempt time, and its attempt count is 0. |
| EmailService.RecordAttempt | app/emailservice/src/main/java/com/varukha/emailservice/service/impl/EmailServiceImpl.java:44-53 | A delivered send gives SENT and keeps the previous error message. A raised send gives ERROR with "<class name>: <message>". The attempt time is set in both cases, and the recipient, subject and content are kept. |
| EmailService.HandleEmailMessage | app/emailservice/src/main/java/com/varukha/emailservice/service/impl/EmailServiceImpl.java:41-58 | The message is stored once as a new email under a fresh id, whatever the outcome, so the store grows by one and no other email changes. It is SENT exactly when the send succeeds and ERROR exactly when it raises, with the error text. The attempt count stays 0 and the attempt time is now. |
| EmailService.RetryOne | app/emailservice/src/main/java/com/varukha/emailservice/service/impl/EmailServiceImpl.java:84-99 | A retried email gains exactly one attempt, whether or not the send succeeds. Its status follows the send outcome, a success keeps the old error message, and the attempt time is now. |
| EmailService.RetryFailedEmails | app/emailservice/src/main/java/com/varukha/emailservice/service/impl/EmailServiceImpl.java:81-101 | The pass adds and removes no email. Every email that is not ERROR is unchanged, and every ERROR email is retried once with its own send outcome and its own clock reading. For every email the pass equals one round of the multi-pass model. |
| EmailService.SinglePass | app/emailservice/src/main/java/com/varukha/emailservice/service/impl/EmailServiceImpl.java:82-99 | One pass retries an ERROR email once and leaves any other email as it is. |
| EmailService.NoAttemptCap | app/emailservice/src/main/java/com/varukha/emailservice/service/impl/EmailServiceImpl.java:82-95 | An email that keeps failing stays ERROR and gains one attempt per pass, without limit. |
| EmailService.SentIsFinal | app/emailservice/src/main/java/com/varukha/emailservice/service/impl/EmailServiceImpl.java:82-84 | A SENT email is never touched by later passes. |
| EmailService.PassesAppend | app/emailservice/src/main/java/com/varukha/emailservice/service/impl/EmailServiceImpl.java:81-101 | Running two sequences of passes one after the other is the same as running the combined sequence. |
| EmailService.LastFailureMessage | app/emailservice/src/main/java/com/varukha/emailservice/service/impl/EmailServiceImpl.java:89-91 | After a run of failing passes, the error message is the last failure's text. |
| EmailService.FailuresThenSuccess | app/emailservice/src/main/java/com/varukha/emailservice/service/impl/EmailServiceImpl.java:84-95 | After failing passes and then one success, the email is SENT. It keeps the last failure's error message, has one attempt per pass it took part in, and is untouched afterwards. |
| RequestValidation.Utf16Length | app/emailservice/src/main/java/com/varukha/emailservice/dto/emailmessage/EmailMessageDto.java:22 | Length in UTF-16 units, as the size limit counts it: at least the number of characters and at most twice that number. |
| RequestValidation.ValidateCargoRequest | app/deliveryservice/src/main/java/org/varukha/deliveryservice/dto/cargo/CargoRequestDto.java:13-27 | Each of the six messages is reported exactly when its constraint fails. The pattern and the minimum accept null. The request is valid exactly when the vehicle number is non-null, non-empty and ASCII letters and digits only, the description is not blank, the weight is non-null and >= 0, and the status is non-null. |
| RequestValidation.AlphanumericIsNotBlank | app/deliveryservice/src/main/java/org/varukha/deliveryservice/dto/cargo/CargoRequestDto.java:14-17 | A vehicle number that matches the alphanumeric pattern is never blank. |
| RequestValidation.ValidateVehicleRequest | app/deliveryservice/src/main/java/org/varukha/deliveryservice/dto/vehicle/VehicleRequestDto.java:12-25 | Each of the five messages is reported exactly when its constraint fails. The request is valid exactly when the type is non-null, the vehicle number is non-empty and ASCII letters and digits only, and both routes are not blank. |
| RequestValidation.ValidateEmailMessage | app/emailservice/src/main/java/com/varukha/emailservice/dto/emailmessage/EmailMessageDto.java:16-26 | Each of the five messages is reported exactly when its constraint fails; the address format and the size limit accept null. The message is valid exactly when the recipient is not blank and well-formed, the subject is not blank and at most 255 UTF-16 units long, and the content is not blank. |
| RequestValidation.NullRecipientRejected | app/emailservice/src/test/java/com/varukha/emailservice/controller/EmailControllerIntegrationTest.java:66-73 | A message with a null recipient is rejected for the blank recipient, and not for the address format. |
| RequestValidation.VehicleNumberExamples | app/deliveryservice/src/main/java/org/varukha/deliveryservice/dto/cargo/CargoRequestDto.java:14-17 | The vehicle number "AB1234" passes. "AB-12" fails the pattern, the empty string fails both constraints, and blanks fail the non-blank check. |

## Left out

- The thread pool, `waitForCompletion` and their timeouts are replaced by sequential runs in submission order, which is the order in which the futures are collected. Interruption of the collecting thread is not modelled.
- `writeResponseToFile` is file I/O and becomes a pass/fail outcome; the JSON report content is not modelled.
- Jackson's tokenizer and object mapper become a token sequence and an abstract decoder. The mapper's field binding, type coercion and unknown-property handling are not modelled.
- The repository save is an abstract oracle that is stateless per cargo. A store whose failures depend on earlier saves (unique constraints, a full connection pool) is not modelled, and neither are rollbacks.
- The vehicle check is `!= null` as in the source. Whether the vehicle exists in the store is not checked, and the model does not check it either.
- Spring Data paging, the `Page` answer and SQL evaluation are left out: the filter is the predicate the specification denotes. `cargoService.getPaginatedFilteredList` is not part of this model.
- `PageRequest.of` is part of Spring Data and is not part of this model; `CargoController.PageRequestOf` restates its two argument checks from its documented behaviour.
- The HTTP wiring of the other controller endpoints, CRUD services, Kafka producers and listeners, MapStruct mappers, the Excel report and the test data generator are outside the modelled core.
- JsonProcessing.CalculateTotalImports: sums are unbounded integers, and the Java `int` counters would wrap after 2^31 - 1 imports in one batch.
- EmailService.RetryOne: the attempt count is an unbounded integer, and the Java `Integer` would wrap after 2^31 - 1 retries.
- RequestValidation.ValidateCargoRequest: the weight is a real number, so NaN and the infinities of a Java `Double` are not modelled.
- RequestValidation.ValidateEmailMessage: the `@Email` address syntax is an uninterpreted predicate, because its rules live in the validation library.
- The `EmailStatus` enumeration file is not part of this model; only the two statuses the service assigns, SENT and ERROR, are modelled.
- CargoController.GetCargoList: uses the corrected page conversion, so it rejects page = Integer.MIN_VALUE, which the source accepts as page index 2147483647 (see Findings and `CargoController.ToPageRequestAsWritten`).
- EmailService.HandleEmailMessage: the Elasticsearch save in the `finally` block is assumed to succeed. If it raised, the message would not be stored and the exception would reach the Kafka listener.
- EmailService.RetryFailedEmails: the Elasticsearch save of each retried email is assumed to succeed. If it raised, that email's new state would not be stored, and the exception would end the loop, so the ERROR emails after it in the repository's listing would not be retried in that pass. The listing order is not modelled.
- Logging is left out everywhere.

## Findings

| source | as written | input that shows it | evidently intended | confidence | as-written member | corrected member |
|---|---|---|---|---|---|---|
| app/deliveryservice/src/main/java/org/varukha/deliveryservice/controller/CargoController.java:86-89 | `PageRequest.of(page - 1, size)` computes `page - 1` in Java `int` | page = -2147483648 (Integer.MIN_VALUE), size = 10: `page - 1` wraps to 2147483647, and the request is accepted as the last possible page instead of being rejected like every other page below 1 | reject every page below 1 | low-medium, not executed | CargoController.MinPageWrapsAround | CargoController.ToPageRequest |
