# Verified model of go-utility's core algorithms

go-utility is a toolkit of Go wrappers. This project models the parts of it that carry algorithms of
their own and proves what they promise:

- **Batch task scheduler** (`goroutine/goroutine.go`). `Scheduler` is a transition system of the
  dispatch loop, the workers, the semaphore, the wait group and the cancel flag, with arbitrary
  interleaving. `Goroutine` is the object with its mutable fields. `RunMeaning` joins the two: for
  every interleaving, worker count and map order, `Run` returns what a sequential evaluation returns,
  and splitting a list homomorphism into chunks and concatenating changes nothing. `RunResult` says
  which entry holds the answer of which step function on which input.
- **Dynamic converter** (`copy/struct.go`). `GoTypes` has the Go types and values, `Numbers` the way
  through float64, `Fields` the first-wins name index, `Convert` the recursive conversion as a
  function that also says what a failed conversion leaves behind, `Copier` the loops and in-place
  steps proved against it, `ConvertMeaning` what the conversion amounts to, `ConvertRules` what each
  rule answers and refuses, `FieldMatching` and `ConvertContents` who fills which field, place and
  key, and `RoundTrip` which values survive a conversion to another type and back.
- **Named parameters** (`sqlw/postgres/dml.go`). `NamedQuery` shows that a sequence of global
  replacements is one simultaneous substitution, and exactly when the query keeps its meaning.
- **MIME message** (`v2/emailw/email.go`). `Mime` prints the message; `MimeLines`, `MimeReader` and
  `Base64` read it after section 5.1.1 of RFC 2046, section 6.8 of RFC 2045 and section 4 of
  RFC 4648; the reader inverts the printer exactly when header fields, body and file names allow it,
  and `MimeMeaning` says part by part what is read.
- **TTL cache** (`v2/localcachew/cache.go`). `TimedCache` proves that sweeping is invisible under
  interleaving, that hits and misses are exact, and how long a stored value is found.
- **Ordered fan-out** (`v2/goroutinew/orchestrator.go`). `Orchestrator` is the object with its queues
  and stores, `FanOut` its whole runs on the same `Scheduler`: when a run crashes, and what it leaves
  under every key. `Sequential` has the executions in which jobs finish in order.
- **Smaller machines.** `StateMachine` and `Configuration` (rule engine with shared rule pointers, and
  what its rules are after any calls), `Graceful` (shutdown hand-off), `FloorLookup` (floor of a
  code through a sort), `Paging` (page walk and status code).

Map iteration orders, the order in which a mutex admits calls, and clock readings are parameters; the
theorems hold for all of them. Functions that live in libraries (number parsing, printing, JSON
decoding, case folding, float conversions out of range) are uninterpreted fields of an environment.

## Findings

- A batch without a batch size gets a key ending in `#batch_all`, which does not parse as a batch key:
  its collector is called with no responses, and the batch's own entry stays
  (`RunMeaning.UnsplitBatchIsNotCollected`).
- A parameter whose name is a proper prefix of a name used in the query is substituted inside that
  name under some map order, and a dollar sign of the query before a digit reads as an argument
  (`NamedQuery.MisreadUnderSomeOrder`).
- A line break in the sender, the recipients, the subject or a file name, a quote or a backslash in a
  file name, and a body line that starts with the delimiter: none of these messages reads back as
  sent, and all others do (`Mime.MailRoundTrip`). A recipient with a comma reads as two, and no
  recipient as one without a name (`MimeMeaning.RecipientsRoundTrip`).
- An orchestrator key with both a single and a batch input has one entry for the two. A batch worker
  that finishes after the single panics unless the single's answer is a slice with its index, and then
  overwrites it there; one that finishes before is overwritten. If both succeed, every run crashes or
  loses one of the answers, unless the single's answer happens to hold the item's
  (`FanOut.OrderedFanOut`, `FanOut.SharedKeyKeeps`, `FanOut.AllKeptExactly`); with one worker it always
  crashes when there is no such index (`FanOut.OneWorkerCrashes`).
- An integer within 512 of 2^63 converts to another signed 64-bit kind as the processor sees fit, and
  one within 1024 of 2^64 to another unsigned one (`Numbers.DetourBound`).
- Struct fields whose json tags hold only options share the empty name, and the later one is filled
  from the earlier (`Fields.EmptyTagHeadsCollide`, `Fields.IndexSendsHome`).
- A struct with any field converts to a map only if the map's element type takes interface values, so
  never to a map of numbers; and a field whose type does not take interface values does not come back
  from a map of interface values (`ConvertMeaning.StructToMap`, `ConvertMeaning.NoStructFromAny`).
- The last page announces another exactly when its number times the page size leaves 64 bits
  (`Paging.LastPageAnnounces`, `Paging.HasNextIsExact`).

## Model

| member | source | states |
|---|---|---|
| BatchKeys.ParsesExactly | goroutine/goroutine.go:523-537 | a key parses to a step and an index exactly when it is a step without the separator, the separator, and a text Atoi takes for that positive index |
| BatchKeys.ParsePrintedKey | goroutine/goroutine.go:252-252 | reading a printed chunk key gives back step and index if and only if the separator does not occur in the step key |
| BatchKeys.CleanKeyIsNoBatchKey | goroutine/goroutine.go:274-290 | a plain step key never reads as a batch key |
| BatchKeys.AllKeyIsNoBatchKey | goroutine/goroutine.go:261-261 | a `#batch_all` key never reads as a batch key, whatever the step |
| BatchKeys.PrefixSelectsOwnStep | goroutine/goroutine.go:390-395 | the prefix test of a collector selects the keys of its own step and of no other |
| BatchKeys.PrintedKeysDistinct | goroutine/goroutine.go:252-252 | printed chunk keys are equal only when step and index are |
| Text.DecimalSpells | goroutine/goroutine.go:252-252 | numbers print in decimal, the highest digit first |
| Text.AtoiSigned | goroutine/goroutine.go:532-532 | a number is read with either sign, and without digits there is none |
| Chunks.FlattenChunked | goroutine/goroutine.go:506-521 | chunking loses, duplicates and reorders nothing |
| Chunks.ChunkShape | goroutine/goroutine.go:506-521 | ceil(n/size) chunks, all full but the last, none empty |
| Chunks.ChunkInterfaces | goroutine/goroutine.go:506-521 | the chunk loop computes the chunks, including its answer for a size of zero and for no items |
| Recorder.OutputIsLast | goroutine/goroutine.go:321-325 | after any recordResponse calls, a key's entry is the response of the last call with it |
| Recorder.BatchSlots | goroutine/goroutine.go:334-342 | at every point a step's slots are as many as its largest chunk index so far, each with its chunk's last response or Go's zero Response |
| Recorder.ProcessAccounting | goroutine/goroutine.go:327-332 | with distinct keys the two process lists are free of repeats, disjoint, and hold exactly the executed keys without and with an error |
| Scheduler.ExecutionKeepsInv | goroutine/goroutine.go:188-223 | every step of dispatcher and workers keeps: token count, wait group, recorded-once log, and that a failure is in the log before it cancels |
| Scheduler.WorkersBounded | goroutine/goroutine.go:182-209 | in every reachable state jobs in executeJob and held tokens stay within the worker count |
| Scheduler.NeverStuck | goroutine/goroutine.go:188-223 | until wg.Wait has returned, some step of the program can be taken |
| Scheduler.ExecutionsAreFinite | goroutine/goroutine.go:188-223 | an execution of n jobs has a bounded number of steps |
| Scheduler.MaximalExecutionsComplete | goroutine/goroutine.go:188-223 | every execution that cannot go on has ended with each job recorded exactly once and no token held |
| Scheduler.NoLaunchAfterCancel | goroutine/goroutine.go:190-204 | once a block-error context is done, only a job already waiting for its token can still be launched; the jobs passed over stay so |
| Scheduler.PassedOverIsSkipped | goroutine/goroutine.go:190-198 | every job passed over after the context is done is recorded as not executed, with the error of a cancelled job, by the time the run is over |
| Scheduler.NoFailureMeansAllSucceeded | goroutine/goroutine.go:188-221 | if the caller never cancels and no failure is recorded, every recorded job was executed and succeeded |
| Scheduler.NoBlockErrorExecutesAll | goroutine/goroutine.go:190-201 | without block-error no job is ever skipped |
| Scheduler.LogHoldsAnswers | goroutine/goroutine.go:212-214 | what is recorded for an executed job is what its step function returned |
| Jobs.AppendChunkJobs | goroutine/goroutine.go:250-259 | the inner loop appends one job a chunk, keyed and numbered from one |
| Jobs.BuildJobs | goroutine/goroutine.go:238-293 | the jobs of every step in map order: chunks, one whole batch, the single input, or nil |
| Goroutine.Goroutine.AddBatchInput | goroutine/goroutine.go:75-98 | one call appends the elements of a list, or the value itself, to the batch of its key and changes no other; ignores an empty key and nil |
| Jobs.BatchIsConcatenation | goroutine/goroutine.go:75-98 | after any calls for any keys, the batch of a key is the concatenation of what the calls for it were given |
| Goroutine.Goroutine.RecordResponse | goroutine/goroutine.go:321-343 | one call takes the four result fields to the next state of the recorder |
| Goroutine.Goroutine.RemoveBatchKeys | goroutine/goroutine.go:389-395 | the clean-up loop deletes exactly the snapshot's keys with the step's prefix |
| Goroutine.Goroutine.ApplyBatchCollectors | goroutine/goroutine.go:345-401 | the collector loop leaves the merged entries and deletes the batch keys of the steps that had batches |
| Goroutine.Goroutine.Run | goroutine/goroutine.go:135-236 | for any recordResponse calls in any order: from reset fields, the four result fields and the returned map are those of recording the calls and collecting |
| RunMeaning.KeyNamesJob | goroutine/goroutine.go:244-290 | the process key alone determines the job it was printed for |
| RunMeaning.ProcessKeysDistinct | goroutine/goroutine.go:238-293 | all process keys of a run are distinct, for every order of the step map |
| RunMeaning.RecordedOutput | goroutine/goroutine.go:321-325 | after a complete run, in any order of completion, each key holds the response of its own job |
| RunMeaning.RecordedBatches | goroutine/goroutine.go:334-342 | after a complete run, in any order of completion, a step's slots are the responses of its chunks in order |
| RunMeaning.CollectedEntry | goroutine/goroutine.go:367-400 | which entry each key has after the collectors: merged, deleted by its own step's collector and no other, or untouched |
| RunMeaning.AnyRunResult | goroutine/goroutine.go:135-236 | whatever failed or was cancelled, the returned map depends only on each job's response, not on the interleaving or any map order, for collectors that depend on their key and responses |
| RunMeaning.RunAccounting | goroutine/goroutine.go:321-332 | after any run the process lists are exactly the executed keys by outcome; with no failure listed and no outside cancel every job succeeded |
| RunMeaning.RunMeansSequential | goroutine/goroutine.go:135-236 | an undisturbed run returns, for every interleaving, worker count and map order, what evaluating each step once in sequence gives |
| RunMeaning.BatchingKeepsMeaning | goroutine/goroutine.go:246-270 | a list homomorphism split into chunks of any size and concatenated by its collector answers, in the sequential evaluation, as one call on all items |
| RunMeaning.BatchedRunKeepsMeaning | goroutine/goroutine.go:75-270 | the map a run returns holds, for such a step, the function applied to the concatenation of all AddBatchInput calls for it, under every interleaving, worker count, batch size and map order |
| RunMeaning.RunScheduled | goroutine/goroutine.go:135-236 | Run on the object, with the recordResponse calls of any execution the scheduler allows, returns the map these theorems are about and leaves the fields they are about |
| RunMeaning.UnsplitBatchIsNotCollected | goroutine/goroutine.go:260-268 | without a batch size the collector sees no responses and the batch's own entry stays |
| RunResult.PlainStepReturns | goroutine/goroutine.go:135-293 | in an undisturbed run, a step without batch items and without a collector is called on its input, or on nil where it has none, and its entry is what it returned, with its error |
| RunResult.WholeBatchReturns | goroutine/goroutine.go:135-293 | without a batch size, the entry of the step's key followed by #batch_all is what the step returned for the list of all its items |
| RunResult.ChunksReturn | goroutine/goroutine.go:135-293 | with a batch size n, the entry numbered i+1 is what the step returned for the items from i*n to the next n or the end; with a collector there is no such entry |
| RunResult.CollectorReturns | goroutine/goroutine.go:345-401 | a collector's entry is its answer on what the step returned for those pieces, in order, or on none if its key names no step whose batch is split |
| RunResult.NothingElseReturned | goroutine/goroutine.go:135-293 | every other key of the returned map is a step without batch items or a batch key of a step with some |
| GoTypes.Zero | copy/struct.go:36-38 | the zero value of a type is a value of that type and false, zero, empty, nil, or made of such values |
| GoTypes.StoredHasType | copy/struct.go:57-61 | storing an assignable value keeps the destination well-typed |
| GoTypes.BytesRoundTrip | copy/struct.go:91-99 | string to bytes and back, and bytes to string and back, are the identity |
| Numbers.Wrapped | copy/struct.go:332-339 | a stored integer is in the range of its kind |
| Numbers.WrappedIsCongruent | copy/struct.go:332-339 | it differs from the 64-bit number by a multiple of the width, and is the number when that fits |
| Numbers.CongruentInRange | copy/struct.go:332-339 | there is only one such integer in the range of the kind |
| Numbers.RoundIsNearest | copy/struct.go:315-319 | float64 rounding goes to a nearest multiple of the spacing, and to an even one in a tie |
| Numbers.RoundingBound | copy/struct.go:315-319 | exact up to 2^53, exact exactly where the spacing divides, and off by at most the number over 2^53 |
| Numbers.DetourExact | copy/struct.go:313-346 | within 2^53 a signed kind gets the number modulo its width, an unsigned one 0 for negatives and else the number modulo its width |
| Numbers.DetourBound | copy/struct.go:313-346 | beyond 2^53 a 64-bit kind gets each number it can hold to within its 2^53rd part, and exactly iff float64 can represent it; from 2^63-512 (signed) or 2^64-1024 (unsigned) on the number rounds past the kind and the implementation's conversion decides |
| Fields.HeadOf | copy/struct.go:623-630 | a tag's head is its longest prefix without a comma |
| Fields.TagHead | copy/struct.go:623-630 | the loop over the tag returns its head |
| Fields.FirstOwner | copy/struct.go:596-607 | the first field that has a name among its candidates, none iff no field has it |
| Fields.IndexStructFields | copy/struct.go:596-607 | the two loops build the index in which every candidate name goes to its first owner |
| Fields.FindSource | copy/struct.go:534-543 | looking the candidates up in the index finds the field of the first candidate that is there |
| Fields.IndexSendsHome | copy/struct.go:524-551 | between structs with the same names and tags every field finds its counterpart iff no field has the most important name of a later one |
| Fields.PartnersAreFound | copy/struct.go:534-543 | where candidate names of different pairs do not meet, every field finds its partner in both directions |
| Fields.EmptyTagHeadsCollide | copy/struct.go:609-630 | two fields with option-only json tags: the second is filled from the first |
| FieldMatching.OwnsMeans | copy/struct.go:609-643 | a field answers to exactly the head of its db tag, the head of its json tag, its name, and its name with a small first letter, where the tags give one |
| FieldMatching.FilledByRank | copy/struct.go:534-643 | of these, in this order, the first that some source field answers to decides, and its first such field is taken |
| Convert.Convert | copy/struct.go:32-129 | conversion terminates for finite types and tree-shaped values, and on success and failure leaves a well-formed value of the destination type |
| Convert.ConvertAny | copy/struct.go:32-129 | the same for source values of interface type, which are not unwrapped |
| Convert.PutMembers | copy/struct.go:504-504 | setting a map entry keeps the keys distinct, replaces an entry of that key and keeps the others |
| Copier.ConvertAssign | copy/struct.go:32-129 | the pointer loop and the ordered rules compute the conversion function |
| Copier.SliceConvert | copy/struct.go:444-468 | the slice case computes it: element by element, or one element from a single value |
| Copier.SliceFromList | copy/struct.go:446-456 | the slice loop stops at the first element that fails |
| Copier.ArrayConvert | copy/struct.go:470-481 | the array loop computes it in place |
| Copier.MapFromMap | copy/struct.go:490-505 | the entry loop computes it, keys printed where they are not strings |
| Copier.MapFromStruct | copy/struct.go:506-515 | the loop over the map of named fields computes it |
| Copier.MapConvert | copy/struct.go:483-522 | the map case computes it, with both its errors |
| Copier.FindFolded | copy/struct.go:565-579 | the nested loops over keys and names find the first matching key |
| Copier.StructConvert | copy/struct.go:524-592 | the field loops over a struct or a map source compute it in place |
| ConvertMeaning.IntegerConversion | copy/struct.go:86-89 | converting between integer kinds, end to end: exact where the value fits within 2^53, else modulo the width, 0 for negatives in unsigned kinds |
| ConvertMeaning.SourcePointers | copy/struct.go:34-41 | pointers around the source, however many, make no difference |
| ConvertMeaning.NilAtAnyDepth | copy/struct.go:34-41 | a nil pointer at any depth zeroes a destination of any type |
| ConvertMeaning.DestinationPointers | copy/struct.go:44-55 | pointers around the destination are followed or made, and the conversion takes place behind them, also when it fails |
| ConvertMeaning.SliceKeepsOrder | copy/struct.go:444-456 | success iff every element converts, then same length and order; on failure the destination is untouched and the first bad index is reported |
| ConvertMeaning.StructFilledInOrder | copy/struct.go:524-551 | fields before the first failure hold their conversions, unmatched and later fields keep what they held, and the error names the field |
| ConvertMeaning.MapKeepsKeys | copy/struct.go:490-505 | a string-keyed map keeps its keys with values converted, iff every value converts; otherwise the destination is untouched |
| ConvertMeaning.AnyTaken | copy/struct.go:32-129 | whether an interface value can be converted depends on the destination type alone |
| ConvertMeaning.StructToMap | copy/struct.go:506-515 | a struct becomes a map iff the element type takes interface values; each candidate name then holds its first owner's value |
| ConvertMeaning.NoStructFromAny | copy/struct.go:553-587 | a field is filled from a map of interface values iff its type takes interface values |
| RoundTrip.Forward | copy/struct.go:32-129 | a lossless conversion succeeds and gives the image, whatever the destination held |
| RoundTrip.Back | copy/struct.go:32-129 | the image is lossless the other way and its image is the original value |
| RoundTrip.RoundTrip | copy/struct.go:32-129 | a lossless value survives conversion to another type and back: numbers that the other kind holds, text, lists, maps, structs, behind any number of pointers on either side |
| RoundTrip.StructRoundTrip | copy/struct.go:524-551 | structs with the same names and tags and no earlier owners come back whole |
| RoundTrip.PairedRoundTrip | copy/struct.go:524-551 | structs whose fields pair up by candidate names, in any order, come back whole |
| ConvertRules.ToNumber | copy/struct.go:313-346 | into a number of another kind: numbers through float64, texts as the number parsed from them without surrounding space, in either case taken into the kind as its whole part, its nearest float32 or itself; a text that does not parse and any other source leave the destination as it was |
| ConvertRules.ToBool | copy/struct.go:658-684 | into a boolean: a number is true exactly when it is not zero, a text is what parses from it, and nothing else is taken |
| ConvertRules.ToText | copy/struct.go:91-94 | into a text: the same bytes, and anything else as it prints |
| ConvertRules.ToBytes | copy/struct.go:95-99 | a text becomes its own bytes, whether or not it looks like JSON |
| ConvertRules.FromJSON | copy/struct.go:261-296 | a text that opens like JSON, into a struct, map or slice: what it decodes to, or an error with the destination as it was |
| ConvertRules.ToSlice | copy/struct.go:457-467 | a single value becomes the only element of a slice |
| ConvertRules.Refused | copy/struct.go:470-591 | which sources arrays, maps and structs refuse, with which error, and with the destination as it was |
| ConvertRules.Assigned | copy/struct.go:57-61 | a value whose type fits is stored as it is, with its type in an interface variable |
| ConvertRules.NullBecomesNil | copy/struct.go:44-50 | a struct becomes a nil pointer iff its boolean field Valid is false |
| ConvertContents.ArrayFilledInOrder | copy/struct.go:470-481 | places before the first element that fails hold their conversions, the places after keep what they held, as far as array and list reach |
| ConvertContents.MapContents | copy/struct.go:483-522 | each entry of a map with keys of any type is stored under its key's text, the last where texts are the same; at the first value that fails nothing is stored and its key is named |
| ConvertContents.StructContents | copy/struct.go:506-515 | every name that a field answers to becomes a key with the conversion of the first such field, and there are no others |
| ConvertContents.FilledFromStruct | copy/struct.go:524-551 | a field is filled from the first field that answers to the most important of its names that any answers to |
| ConvertContents.FilledFromMap | copy/struct.go:553-587 | a field is filled from the first entry whose key is one of its names but for case |
| NamedQuery.PrepareQueryNamed | sqlw/postgres/dml.go:18-29 | the loop makes the replacements in map order and collects the values in the same order |
| NamedQuery.FirstPlaceholder | sqlw/postgres/dml.go:23-23 | the first parameter is written as $1 |
| NamedQuery.TokensRender | sqlw/postgres/dml.go:18-29 | splitting a query into text and names loses nothing |
| NamedQuery.ReplaceIsPass | sqlw/postgres/dml.go:23-23 | a global replacement acts name by name, on the names that start with the key |
| NamedQuery.RewriteIsSubstitution | sqlw/postgres/dml.go:22-26 | all replacements together are one simultaneous substitution, each name taken by the first key it starts with, for identifier keys |
| NamedQuery.RewritingKeepsMeaning | sqlw/postgres/dml.go:18-29 | for identifier keys: if no key is a proper prefix of a name used and no dollar sign stands before a digit, positional and named reading agree for every map order and all values |
| NamedQuery.MisreadUnderSomeOrder | sqlw/postgres/dml.go:18-29 | otherwise some map order makes the readings differ, for identifier keys |
| NamedQuery.RewritingExact | sqlw/postgres/dml.go:18-29 | for identifier keys, the rewriting keeps the meaning for every map order if and only if no key is a proper prefix of a name used and no dollar sign of the query stands before a digit |
| Base64.DecodeEncode | v2/emailw/email.go:121-121 | decoding encoded bytes gives the bytes |
| Base64.EncodedLength | v2/emailw/email.go:121-121 | three bytes, or a rest, become four characters |
| Base64.EncodedAlphabet | v2/emailw/email.go:121-121 | encoded text is in the base64 alphabet or padding |
| MimeLines.JoinOfLines | v2/emailw/email.go:103-131 | splitting a text where its lines break and joining gives the text |
| MimeReader.FieldRoundTrip | v2/emailw/email.go:90-94 | a printed header field reads back |
| MimeReader.EntityRoundTrip | v2/emailw/email.go:117-119 | header fields, blank line and body read back |
| MimeReader.QuoteRoundTrip | v2/emailw/email.go:119-119 | a quoted file name reads back iff it holds no quote and no backslash |
| MimeReader.DelimitedBlocks | v2/emailw/email.go:103-131 | delimited parts read back as printed when no line of them starts with the delimiter |
| MimeReader.FirstPartCut | v2/emailw/email.go:105-109 | a line of the first part that starts with the delimiter cuts the part there |
| Mime.EncodedLines | v2/emailw/email.go:123-129 | the 76-character loop prints the chunks of the encoded text |
| Mime.PrintAttachment | v2/emailw/email.go:109-129 | what the attachment loop appends for one attachment |
| Mime.PrintHeader | v2/emailw/email.go:90-95 | the header text |
| Mime.PrintMessage | v2/emailw/email.go:84-131 | header and content as Send builds them |
| Mime.EncodedLinesAreSafe | v2/emailw/email.go:121-129 | base64 lines have 1 to 76 characters, all but the last 76, hold no part of a line break and can never be taken for a boundary |
| Mime.AttachmentRead | v2/emailw/email.go:109-129 | an attachment reads back with its type and content, and with what the reader makes of its quoted name |
| Mime.AttachmentsRead | v2/emailw/email.go:108-130 | the attachment list reads back as sent iff its names are safe |
| Mime.MailRoundTrip | v2/emailw/email.go:84-133 | a printed message reads back as sent iff no line break is in the sender, the joined recipients, the subject, a MIME type or a file name, no body line starts with the delimiter, and no file name holds a quote or backslash |
| MimeMeaning.RecipientsRoundTrip | v2/emailw/email.go:91-91 | the recipients can be told from the To field iff there is one and none holds a comma; no recipient prints as one empty recipient does |
| MimeMeaning.MessageReadsBack | v2/emailw/email.go:84-133 | what is read of such a message: sender, subject, body, the recipients split at commas, text/html in utf-8 iff the body is HTML and else text/plain, and of each attachment its name, content and type, or application/octet-stream where it has none |
| MimeMeaning.HeaderAnnounces | v2/emailw/email.go:90-95 | the header announces MIME version 1.0 and a multipart body with the fixed boundary |
| MimeMeaning.AttachmentAnnounces | v2/emailw/email.go:117-129 | the lines of an attachment: its type, the base64 encoding, its name as a quoted file name, an empty line, and its content in lines of 76 characters but the last |
| MimeMeaning.AlphabetIs | v2/emailw/email.go:121-121 | the alphabet is that of RFC 4648, section 4 |
| MimeMeaning.EncodesVectors | v2/emailw/email.go:121-121 | the test vectors of RFC 4648, section 10 |
| TimedCache.SweepIsInvisible | v2/localcachew/cache.go:90-101 | sweeping with an old clock reading changes no later lookup |
| TimedCache.LocalCache.SetKV | v2/localcachew/cache.go:104-126 | stores the value; from then on it is found at any time up to the clock reading plus its time to live, or always without one |
| TimedCache.LocalCache.Get | v2/localcachew/cache.go:130-147 | answers the value that is stored and not expired |
| TimedCache.LocalCache.DeleteExpired | v2/localcachew/cache.go:90-101 | the deletion loop removes exactly the items whose expiry lies before its clock reading, and changes no other |
| TimedCache.StepRefines | v2/localcachew/cache.go:90-147 | one step of the swept cache is a step of the never-swept timed map: the same answer of a Get, and a Length between the unexpired and all items of that map |
| TimedCache.SweepingIsInvisible | v2/localcachew/cache.go:90-173 | from related states, under every interleaving with a monotone clock, callers of Get see the answers of a timed map that is never swept, and callers of Length a number between its unexpired and its stored items |
| TimedCache.SweptAndUnsweptAgree | v2/localcachew/cache.go:90-173 | from an empty cache the swept and the never swept system allow the same executions; every Get has the same answer, and every Length lies between the unexpired items and those of the never swept system |
| TimedCache.HitWasCurrent | v2/localcachew/cache.go:130-147 | a hit returns the value that was current and unexpired at the locked read |
| TimedCache.MissIsExact | v2/localcachew/cache.go:130-147 | a miss is exact when no write to the key overlaps the call |
| TimedCache.SetThenGet | v2/localcachew/cache.go:104-147 | under every interleaving, swept or not: after a SetKV and without a later write to the key, a Get answers the value iff it has no time to live or the clock has not passed that of the SetKV plus it, and misses otherwise |
| TimedCache.AbsentIsMissed | v2/localcachew/cache.go:130-173 | a key that was never written, deleted or cleared is missed until it is written |
| TimedCache.SweepRemovesExpired | v2/localcachew/cache.go:90-101 | a sweep removes exactly what was over when it read the clock |
| TimedCache.LengthCounts | v2/localcachew/cache.go:167-173 | Length answers the number of stored items |
| Orchestrator.Orchestrator.QueueItems | v2/goroutinew/orchestrator.go:112-114 | one job for each item, with its index |
| Orchestrator.Orchestrator.QueueBatches | v2/goroutinew/orchestrator.go:106-116 | queues the batches that have a step and allocates their result slices |
| Orchestrator.Orchestrator.FinishJob | v2/goroutinew/orchestrator.go:130-145 | stores one result in its place, writes into whatever slice its key holds, panics where there is none, or appends one error |
| Orchestrator.Orchestrator.Run | v2/goroutinew/orchestrator.go:93-156 | for any order of finishing: whether a worker panics, and else the results and errors of a run, and the first error returned |
| Orchestrator.SlotHoldsAnswer | v2/goroutinew/orchestrator.go:139-145 | whatever the workers of a log leave in a slot is the answer of its item where that has finished without error, and else what was there |
| Orchestrator.SingleHoldsAnswer | v2/goroutinew/orchestrator.go:136-144 | once a single has finished without error, its key holds its answer with the later items of that key written in where they fit |
| Orchestrator.CrashesExactly | v2/goroutinew/orchestrator.go:139-144 | workers panic iff some item finishes after a single of its key whose answer is no slice with its index |
| Orchestrator.OneErrorPerFailure | v2/goroutinew/orchestrator.go:130-134 | there are as many errors as failed jobs |
| FanOut.JobsHaveOwnPlaces | v2/goroutinew/orchestrator.go:97-116 | no two jobs write the same place iff no registered key has both a single and a non-empty batch input |
| FanOut.OrderedFanOut | v2/goroutinew/orchestrator.go:93-156 | for every interleaving, worker count and map order: the run crashes iff a succeeding item finishes after a succeeding single of its key that has no slot for it; otherwise every key, whatever happens under others, holds its batch answers in input order, or its single's answer with the later items written in, or what it held before; one error a failure |
| FanOut.UnsharedInOrder | v2/goroutinew/orchestrator.go:93-156 | a key without both kinds of input is in order in every run that does not crash, whatever other keys do; if no key is used both ways, no run crashes |
| FanOut.HandlersAnswers | v2/goroutinew/orchestrator.go:93-156 | for such a key: the slice of what its handler returned for each input, in the order of the inputs and nil where it failed; or what it returned for the single input, if it did not fail; nothing new under any other key |
| FanOut.ErrorsNameFailures | v2/goroutinew/orchestrator.go:130-134 | the errors name the key of each input its handler failed on, with what it returned, and nothing else |
| FanOut.SharedKeyKeeps | v2/goroutinew/orchestrator.go:136-144 | for a key with both kinds of input: the single's answer is kept iff no different answer of a later item was written into it, an item's iff it finished after the single or the single's answer holds the same |
| FanOut.AllKeptExactly | v2/goroutinew/orchestrator.go:136-144 | a run returns with every answer kept iff no single and item of one key succeed with answers that one value cannot hold |
| FanOut.OneWorkerCrashes | v2/goroutinew/orchestrator.go:119-146 | with one worker a run crashes iff some single and some item of one key succeed and the single's answer has no slot for the item |
| FanOut.SomeRunCrashes | v2/goroutinew/orchestrator.go:119-146 | with any number of workers some execution crashes iff that is so |
| Sequential.OneWorkerInOrder | v2/goroutinew/orchestrator.go:119-146 | with one worker jobs finish in the order they were queued |
| Sequential.InOrderExecution | v2/goroutinew/orchestrator.go:119-146 | with any number of workers and any answers there is an execution to the end in which they do |
| FanOut.RunScheduled | v2/goroutinew/orchestrator.go:93-156 | Run on the object, with its workers finishing as in any execution the scheduler allows, has that outcome |
| StateMachine.RunHooksStopsAtFailure | v2/statemachinew/fsm.go:136-148 | a hook loop calls the hooks up to the first that fails, which fails and is the first to |
| StateMachine.CallHooks | v2/statemachinew/fsm.go:137-141 | the loop computes that |
| StateMachine.HooksRunInOrder | v2/statemachinew/fsm.go:122-163 | the hooks called are a prefix of guards, pre- and post-hooks, and the entity is what they make of it; without an error all were called, and an error means the last one called is the first of guards, pre- and post-hooks that fails, and names its list and its error |
| StateMachine.StateChangesExactly | v2/statemachinew/fsm.go:122-163 | the target state is returned iff the transition is registered for the current state and every guard and pre-hook passes; otherwise the current one |
| StateMachine.RulesStayDisjoint | v2/statemachinew/fsm.go:80-120 | over any calls, distinct events never share a rule object |
| StateMachine.OnReplaces | v2/statemachinew/fsm.go:80-89 | registering an event anew leaves its old rule unused |
| StateMachine.ReplacedForGood | v2/statemachinew/fsm.go:80-120 | over any later calls a replaced rule stays unused |
| StateMachine.ReplacedBuilderIsHarmless | v2/statemachinew/fsm.go:91-120 | after any calls, a Fire of any event does what it would do had the calls through a replaced builder been left out |
| StateMachine.ReplacedBuilderIsUnseen | v2/statemachinew/fsm.go:80-163 | in any sequence of calls every Fire along the way has the same outcome, and the threaded state at each Fire is the same, with and without the calls through a replaced builder |
| StateMachine.MovesAlongEdges | v2/statemachinew/fsm.go:122-163 | a caller threading the returned state moves only along edges registered at that moment |
| StateMachine.Builder.From | v2/statemachinew/fsm.go:95-100 | adds the listed states to the rule's starting states |
| StateMachine.Fsm.On | v2/statemachinew/fsm.go:80-89 | makes a fresh rule and points the event at it |
| StateMachine.Fsm.Fire | v2/statemachinew/fsm.go:122-163 | computes the fire of the event's rule, or the unknown-event error |
| StateMachine.Drive | v2/statemachinew/fsm.go:80-163 | any calls through the objects and their shared pointers give the machine and the states of the value-level run |
| Configuration.RulesAreAsGiven | v2/statemachinew/fsm.go:80-120 | for any calls on a new machine, the rule an event uses holds the states of the From calls through its builder since its last On, the state of the last To, and as guards, pre- and post-hooks what the Guard, Pre and Post calls gave, in order |
| Configuration.FireAsGiven | v2/statemachinew/fsm.go:80-163 | a fire after any calls: an unknown event without an On; else the state becomes that of the last To iff the current one was given by From and no guard or pre-hook that was given fails, and the hooks given are called in order up to the first that fails, which the error names |
| Configuration.FireAlong | v2/statemachinew/fsm.go:80-163 | every fire of a run acts so on the state and entity that the fires before it left, with what the calls before it gave |
| Graceful.RunKeepsInv | v2/gracefulw/graceful.go:89-127 | every interleaving keeps: takes and queue together are the registrations in order, and wait group, done channel and outcomes are consistent |
| Graceful.HandOff | v2/gracefulw/graceful.go:39-111 | the tasks of all Register calls, in order, are queued, held by exactly one Execute, or started exactly once; once all are launched, queued or started exactly once |
| Graceful.DoneMeansFinished | v2/gracefulw/graceful.go:113-127 | an Execute that returned through done has seen every cleanup it took return |
| Graceful.NeverStuck | v2/gracefulw/graceful.go:98-127 | an Execute that has not returned has a step other than its time-out |
| Graceful.RunsAreBounded | v2/gracefulw/graceful.go:98-127 | without new registrations and Executes a run has a bounded number of steps |
| Graceful.Graceful.Register | v2/gracefulw/graceful.go:39-49 | appends the task to the queue, as the transition does |
| Graceful.Graceful.Execute | v2/gracefulw/graceful.go:89-111 | without interruption: takes the whole queue, leaves it empty and starts every task in order, as the transitions do |
| FloorLookup.FloorDetermined | response/echo_error.go:272-279 | a greatest key not above a code exists iff some key is not above it, and is unique |
| FloorLookup.SortDescending | response/echo_error.go:268-270 | sorts the keys in place, descending, keeping each as often as before |
| FloorLookup.ScanKeys | response/echo_error.go:274-278 | the scan finds the greatest key not above the code, none iff all are above |
| FloorLookup.ConvertError | response/echo_error.go:262-281 | for every map order the handler of the greatest key not above the code answers, and the error is returned unchanged without one |
| FloorLookup.OutermostIsFound | response/echo_error.go:272-273 | the coded error is found with its code and message through whatever wraps it, and none where there is none |
| Paging.HasNextIsExact | v2/responsew/response.go:112-112 | for each page up to the one that holds the end, has_next_page says whether items remain iff page times size fits 64 bits; the offset is right in either case |
| Paging.LastPageAnnounces | v2/responsew/response.go:112-112 | every page before the last announces another; the last announces none iff its end fits 64 bits |
| Paging.WalkCoversOnce | v2/responsew/response.go:58-65 | where the end of the last page fits 64 bits, following has_next_page reads max(1, ceil(total/size)) pages whose windows cover every item exactly once |
| Paging.FollowPages | v2/responsew/response.go:58-70 | a client that reads the limit and offset of the object for each page and follows has_next_page reads these windows |
| Paging.Pagination.GetLimit | v2/responsew/response.go:58-60 | the limit is the page size |
| Paging.Pagination.GetOffset | v2/responsew/response.go:63-65 | the offset is the number of items on the pages before, where it fits 64 bits |
| Paging.WrappedWalkGoesOn | v2/responsew/response.go:112-112 | a total and a size, size 2 and total 2^63-1, for which the last page announces another |
| Paging.LeadsIsUnique | v2/responsew/response.go:139-147 | the three leading digits of a number are unique |
| Paging.LeadingDigits | v2/responsew/response.go:139-143 | the dividing loop leaves the three leading digits of a code of three or more, and any other code as it is |
| Paging.Error | v2/responsew/response.go:130-163 | the status is those digits where they are a status, else 500; code 1 and the fixed message; the service code, message and data of the outermost status error as details and data, or the text of an error without one and no data |
| Paging.OutermostIsFound | v2/responsew/response.go:138-138 | the status error is found as it is through whatever wraps it, and none where there is none |

## Left out

- Adapters for brokers, bots, storage, SQL, Mongo, Elastic, Redis and migrations: thin calls into SDKs whose code is not part of this model.
- HTTP frameworks, middleware, loggers, tracing, jwt and password helpers: plumbing, or cryptography done by libraries.
- Concurrency inside the objects: `Goroutine.Run` and `Orchestrator.Run` take the order of their recordResponse or finish calls as a parameter; `RunMeaning.RunScheduled` and `FanOut.RunScheduled` bind it to an execution of the transition system.
- RunMeaning.AnyRunResult: collectors take no context, although Go passes them the run's. Each is called once, so the claim holds with what it answers under the context of that run, which may differ between runs. Steps may answer as they like, since the claim is about the responses recorded.
- Graceful.Graceful.Execute: the method is one uninterrupted run up to the wait; its interleavings with registrations, other calls and time-outs are those of the transition system.
- Wall-clock time-outs: a context may be done at any moment; deadlines, step time-outs and the option parser of the scheduler are not modelled.
- Panics: a step that panics with PanicAsError is a step that returns an error; with it off the process dies, which is not modelled.
- Zero or negative worker counts of the orchestrator, which block or panic in Go.
- FanOut.OrderedFanOut: slices that a handler returns twice, or keeps, are not told apart from copies; a write into one is seen under its own key only. After a panic nothing is said, as the process is gone.
- SMTP delivery, templates and the lookup of MIME types in the mailer: the MIME type of an attachment is an input.
- Mime.MailRoundTrip: lines end at CRLF only, for printer and reader alike; a reader that also breaks lines at a bare LF or CR would cut at a delimiter after one.
- OS signals and log output of the graceful shutdown.
- Time-to-live values so large that adding them to the clock overflows.
- Hooks of the state machine that themselves register rules, and nil hooks.
- The echo context and the response constructors of the error handler; a nil handler in the registry.
- Convert.Convert: updates in place are given as the value left in the destination, so two destinations that share memory, and slices or maps that share backing store with the source after a plain assignment, are not told apart.
- In the converter: time.Time, the sql.Null types, AssignTo methods, a nil source, unexported and embedded fields, named types other than structs, channels, functions, complex numbers, cyclic values and self-recursive types.
- RoundTrip.RoundTrip: numbers printed as text are outside its lossless values, since printing and parsing are uninterpreted; narrowing to float32 is only assumed to keep what float32 represents. A nil behind a non-nil pointer does not survive in Go.
- NamedQuery.RewritingExact: parameter names that are not identifiers are outside it, since a query cannot name them.
- NamedQuery.RewriteIsSubstitution: has the same condition on the keys, and none on the query.
