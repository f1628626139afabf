# DelimitedJSONReader, modelled in Dafny

This project models the record reader that MarkLogic Content Pump (mlcp) uses for
delimited JSON input: a file holds one JSON document per line, and each call of
`nextKeyValue` pulls one physical line, moving on to the next file when the
split is a directory. The reader turns each line into a (key, value) record:

- a blank line (every char at or below U+0020) gives a null key;
- a line that starts with a space gives a null key;
- any other line is a content line. It is keyed either by the next generated id
  (`<path>-<start>-<n>`) or by the value under the configured uri field name
  in the first map, in breadth-first order, that holds that name, when that
  value is a string or number; otherwise the line is skipped.

The model has five modules:

- `Text`: `String.trim()` and the decimal text of an integer.
- `JsonValue`: the tree the JSON mapper builds (ordered maps, lists, scalars),
  the children a map puts on the search queue, and which maps hold the field.
- `UriLookup`: `findUriInJSON`. The queue loop (`BreadthFirstLookup`) is proved
  equal to a queue-free, level-by-level reference search (`LevelOrderLookup`).
  The properties of the search are proved about that reference.
- `Ids`: the id generator's seed and ids, and their uniqueness.
- `ContentPump`: the reader class, its line classification, the keying of one
  line (`Step`, a pure function of the reader's state and the line) and the
  sequence of lines across the files of a split.

The reader is a class whose methods update its fields in place.
`NextKeyValue` is proved against `Step` and `NextLine`, and the lemmas about
those two state what the reader promises.

Collaborators whose code is not part of this model are parameters of the reader:

- the JSON parser (`parse`), including how trailing text after a document is treated;
- the base reader's uri encoding (`encodeUri`);
- the byte length of a line in the platform charset (`byteLength`);
- whether the framework's value holder takes `Text` (`valueIsText`).

The files of a split are a sequence of files, each a sequence of lines. For a
directory split, the files come in the order the file iterator yields them.

## Model

| member | source | states |
|---|---|---|
| ContentPump.ClassifyMeaning | trunk/mlcp/src/main/java/com/marklogic/contentpump/DelimitedJSONReader.java:148-159 | a line is blank exactly when every char is at or below U+0020; it counts as indented exactly when it is not blank and starts with a space; every other line is content, including one that starts with a tab |
| ContentPump.WhitespaceLineSkipped | trunk/mlcp/src/main/java/com/marklogic/contentpump/DelimitedJSONReader.java:148-152 | a whitespace-only line is skipped in either mode, whatever the search would say |
| ContentPump.IndentedLineSkipped | trunk/mlcp/src/main/java/com/marklogic/contentpump/DelimitedJSONReader.java:153-158 | a line with a leading space is skipped in either mode, even when it is valid JSON |
| ContentPump.GeneratedKeyIgnoresContent | trunk/mlcp/src/main/java/com/marklogic/contentpump/DelimitedJSONReader.java:160-161 | in generated-id mode a content line is keyed with the next id, whatever it holds |
| ContentPump.FieldKeyOutcomes | trunk/mlcp/src/main/java/com/marklogic/contentpump/DelimitedJSONReader.java:162-175 | in field mode a content line is keyed exactly when the search yields a uri, and then by that uri. A search that finds no field, or a value that is not a string or number, gives a skipped line, and so does text that is not JSON. Every other exception escapes as it is: the mapping exception exactly for a document that is neither an object nor null, and the cast and null failures of the search |
| ContentPump.StepCountsBytesOnce | trunk/mlcp/src/main/java/com/marklogic/contentpump/DelimitedJSONReader.java:148-194 | bytes are added once, by the line's own byte length, exactly for a keyed line, even when its key is dropped again. An escaping exception happens exactly when the line's key is an exception. Any byte count comes with a true return on a content line |
| ContentPump.StepSkipsNonContent | trunk/mlcp/src/main/java/com/marklogic/contentpump/DelimitedJSONReader.java:148-158 | a blank or indented line returns true, nulls the key and leaves value, bytes and id count unchanged |
| ContentPump.StepKeyIsEncoded | trunk/mlcp/src/main/java/com/marklogic/contentpump/DelimitedJSONReader.java:171-191 | a non-null key after a true return is the uri-encoded form of this line's generated id or of the found uri, and then the line was a content line and the holder takes Text |
| ContentPump.StepTakesOneIdPerContentLine | trunk/mlcp/src/main/java/com/marklogic/contentpump/DelimitedJSONReader.java:160-161 | in generated-id mode a pull never throws; a content line takes exactly one id and counts its bytes; any other line takes no id and counts no bytes |
| ContentPump.StepFieldModeFailures | trunk/mlcp/src/main/java/com/marklogic/contentpump/DelimitedJSONReader.java:162-175 | in field mode no id is taken. A parse failure, a search that finds no field, and a value that is not a string or number each return true with a null key and nothing else changed. The cast and null failures of the search escape as they are. The mapping exception escapes exactly for a non-object, non-null document. An escaping exception leaves key, value and bytes as they were |
| ContentPump.StepFieldAbsentSkips | trunk/mlcp/src/main/java/com/marklogic/contentpump/DelimitedJSONReader.java:162-174 | a field-mode content line whose document is an object with only maps in its lists, and which holds the field nowhere, returns true with a null key and changes nothing else |
| ContentPump.Classify | trunk/mlcp/src/main/java/com/marklogic/contentpump/DelimitedJSONReader.java:148-159 | sorts a line as blank (`trim()` empty), indented (leading space) or content, in the reader's order of tests; its meaning is stated by `ClassifyMeaning` |
| ContentPump.KeyOfLine | trunk/mlcp/src/main/java/com/marklogic/contentpump/DelimitedJSONReader.java:148-175 | how a pulled line is keyed: skipped for a blank or indented line, the next id in generated-id mode, and in field mode the found uri, a skip for no usable value or a parse failure, or an escaping exception; stated by the lemmas above |
| ContentPump.Step | trunk/mlcp/src/main/java/com/marklogic/contentpump/DelimitedJSONReader.java:148-194 | the return value and the new key, value, bytes read and id count after one pulled line; stated by the `Step…` lemmas and `RunInGeneratedMode` |
| ContentPump.RunInGeneratedMode | trunk/mlcp/src/main/java/com/marklogic/contentpump/DelimitedJSONReader.java:148-194 | over any run of lines in generated-id mode, ids taken equal the number of content lines and bytes counted equal those lines' total byte length |
| ContentPump.NextLineSkipsOnlyExhaustedFiles | trunk/mlcp/src/main/java/com/marklogic/contentpump/DelimitedJSONReader.java:140-147 | the next line pulled is the current file's next line, or, in a directory split, the first line of a later file with only empty files between. Nothing is left exactly when the remaining files are all empty |
| ContentPump.NextLine | trunk/mlcp/src/main/java/com/marklogic/contentpump/DelimitedJSONReader.java:140-147 | the position of the next line `readLine` returns: the current file's next line, or, through `findNextFileEntryAndInitReader` (lines 112-121), the first line of a later file of a directory split; none when the remaining files are empty |
| ContentPump.DelimitedJsonReader.constructor | trunk/mlcp/src/main/java/com/marklogic/contentpump/DelimitedJSONReader.java:56-65 | a new reader has no line reader, `totalBytes` is Long.MAX_VALUE, and `generateId` and `hasNext` are true |
| ContentPump.DelimitedJsonReader.Initialize | trunk/mlcp/src/main/java/com/marklogic/contentpump/DelimitedJSONReader.java:84-110 | opens the first file of the split at its first line. Sets bytes read to 0 and the total to the split's length. Configures the key mode; the id seed comes from the split's own path and start, taken before a directory's first file is opened |
| ContentPump.DelimitedJsonReader.ConfigureKeys | trunk/mlcp/src/main/java/com/marklogic/contentpump/DelimitedJSONReader.java:91-98 | generated-id mode seeds the generator with path, dash, start and no ids taken; field mode reads the uri field name and leaves the generator alone |
| ContentPump.DelimitedJsonReader.FindNextFileEntryAndInitReader | trunk/mlcp/src/main/java/com/marklogic/contentpump/DelimitedJSONReader.java:112-122 | returns true exactly in a directory split with a further file, and then opens it at its first line; otherwise it clears `hasNext` and moves nothing |
| ContentPump.DelimitedJsonReader.SetKey | trunk/mlcp/src/main/java/com/marklogic/contentpump/DelimitedJSONReader.java:198-206 | a null key stays null; any other key is stored uri-encoded |
| ContentPump.DelimitedJsonReader.FindUriInJson | trunk/mlcp/src/main/java/com/marklogic/contentpump/DelimitedJSONReader.java:208-243 | returns what the reference lookup gives for the parsed line: parse exception, mapping exception, or the search's answer |
| ContentPump.DelimitedJsonReader.KeyLine | trunk/mlcp/src/main/java/com/marklogic/contentpump/DelimitedJSONReader.java:148-195 | the return value and the new key, value, bytes and id count are those `Step` gives for the line |
| ContentPump.DelimitedJsonReader.KeyByGeneratedId | trunk/mlcp/src/main/java/com/marklogic/contentpump/DelimitedJSONReader.java:160-161 | a content line in generated-id mode takes the next id and ends as `Step` says |
| ContentPump.DelimitedJsonReader.KeyByField | trunk/mlcp/src/main/java/com/marklogic/contentpump/DelimitedJSONReader.java:162-175 | a content line in field mode is searched and ends as `Step` says: keyed, skipped, or an escaping exception |
| ContentPump.DelimitedJsonReader.StoreLine | trunk/mlcp/src/main/java/com/marklogic/contentpump/DelimitedJSONReader.java:171-194 | the key is set and encoded, the line becomes the value when the holder takes Text (otherwise the key is nulled again), and the line's bytes are counted |
| ContentPump.DelimitedJsonReader.PullLine | trunk/mlcp/src/main/java/com/marklogic/contentpump/DelimitedJSONReader.java:140-195 | a line that readLine returns is consumed and keyed as `Step` says |
| ContentPump.DelimitedJsonReader.NextKeyValue | trunk/mlcp/src/main/java/com/marklogic/contentpump/DelimitedJSONReader.java:135-196 | with no line reader: false and `hasNext` cleared. When every remaining file is exhausted: false, `hasNext` cleared, bytes read set to the total, position at the end of the last file. Otherwise the line `NextLine` names is consumed, and the result and new record are those `Step` gives. Configuration never changes |
| UriLookup.Verdict | trunk/mlcp/src/main/java/com/marklogic/contentpump/DelimitedJSONReader.java:219-227 | the value under the field gives a uri exactly when it is a string or a number (its text), and never NoField or an exception |
| UriLookup.Probe | trunk/mlcp/src/main/java/com/marklogic/contentpump/DelimitedJSONReader.java:216-221 | one dequeued element decides nothing exactly when it is a map without the field; it throws exactly when it is not a map; it never decides NoField |
| UriLookup.LevelOrderLookup | trunk/mlcp/src/main/java/com/marklogic/contentpump/DelimitedJSONReader.java:213-242 | the reference search: each depth level scanned left to right in full before the next, the first decision ending the search, NoField when the levels run out; stated by the lookup lemmas below |
| UriLookup.FindUri | trunk/mlcp/src/main/java/com/marklogic/contentpump/DelimitedJSONReader.java:209-211 | findUriInJSON as a whole: the parse exception for text that is not JSON, the mapping exception for a document that is neither object nor null, otherwise the reference search; stated by `FindUriFailures` |
| UriLookup.BreadthFirstLookup | trunk/mlcp/src/main/java/com/marklogic/contentpump/DelimitedJSONReader.java:213-242 | the FIFO queue loop gives exactly the level-by-level reference answer |
| UriLookup.EnqueueChildren | trunk/mlcp/src/main/java/com/marklogic/contentpump/DelimitedJSONReader.java:230-237 | the queue grows by each entry's nested map, or by a list's elements wholesale, in entry order |
| UriLookup.LookupIsFirstDecision | trunk/mlcp/src/main/java/com/marklogic/contentpump/DelimitedJSONReader.java:216-242 | the answer is decided by the first element in level order that is not a map without the field. The answer is NoField exactly when no such element exists |
| UriLookup.ShallowerMatchWins | trunk/mlcp/src/main/java/com/marklogic/contentpump/DelimitedJSONReader.java:216-228 | a map at depth d holding the field forces an answer decided at depth d or shallower, never by a later element of depth d |
| UriLookup.RootMatchTerminates | trunk/mlcp/src/main/java/com/marklogic/contentpump/DelimitedJSONReader.java:219-227 | a root holding the field with a value that is not a string or number gives none, whatever lies deeper |
| UriLookup.NoFieldIffAbsent | trunk/mlcp/src/main/java/com/marklogic/contentpump/DelimitedJSONReader.java:216-242 | when every list holds only maps, the search never throws, and it finds nothing exactly when no reachable map holds the field |
| UriLookup.SearchThrowsOnlyRuntime | trunk/mlcp/src/main/java/com/marklogic/contentpump/DelimitedJSONReader.java:217-236 | the search itself raises only the cast failure or the null dereference |
| UriLookup.FindUriFailures | trunk/mlcp/src/main/java/com/marklogic/contentpump/DelimitedJSONReader.java:209-243 | the parse exception is raised exactly for text that is not JSON, and the mapping exception exactly for a document that is neither object nor null; any other exception is a runtime one |
| UriLookup.FirstNonMapThrows | trunk/mlcp/src/main/java/com/marklogic/contentpump/DelimitedJSONReader.java:216-236 | when every element before it in breadth-first order is a map without the field, the first element that is not a map decides the search: it throws the cast failure, or the null dereference for null, whatever maps holding the field come after it |
| UriLookup.ScalarListBeforeMatchThrows | trunk/mlcp/src/main/java/com/marklogic/contentpump/DelimitedJSONReader.java:216-236 | for a document whose list of strings comes before the map holding the field (`{"tags":["a"],"doc":{"id":1}}`), the search throws the cast failure although the field occurs |
| JsonValue.FirstBindingIsLast | trunk/mlcp/src/main/java/com/marklogic/contentpump/DelimitedJSONReader.java:211 | in an object whose names are distinct, the first binding the lookup reads is the value the mapper's map keeps, whose later puts replace earlier ones |
| Text.TrimEmptyIffAllTrimmable | trunk/mlcp/src/main/java/com/marklogic/contentpump/DelimitedJSONReader.java:148 | `trim()` is empty exactly when every char is at or below U+0020 |
| Text.TrimIsTrimmed | trunk/mlcp/src/main/java/com/marklogic/contentpump/DelimitedJSONReader.java:165 | the trimmed line is a slice of the line with no trimmable char at either end, and the prefix and suffix cut off consist only of chars at or below U+0020 |
| Text.TensUnitsAreDivMod | trunk/mlcp/src/main/java/com/marklogic/contentpump/DelimitedJSONReader.java:93-94 | the digit split used for the decimal text of the split start and the id count is integer division and remainder by 10 |
| Text.NatTextInjective | trunk/mlcp/src/main/java/com/marklogic/contentpump/DelimitedJSONReader.java:93-94 | distinct naturals have distinct decimal texts |
| Text.IntTextInjective | trunk/mlcp/src/main/java/com/marklogic/contentpump/DelimitedJSONReader.java:221-222 | distinct integers (the split start, a numeric uri) have distinct decimal texts |
| Ids.Seed | trunk/mlcp/src/main/java/com/marklogic/contentpump/DelimitedJSONReader.java:93-94 | the id seed starts with the split's path, followed by a dash (and then the split's start) |
| Ids.GeneratedId | trunk/mlcp/src/main/java/com/marklogic/contentpump/DelimitedJSONReader.java:161 | a generated id starts with the seed, followed by a dash (and then the call number) |
| Ids.GeneratedIdInjective | trunk/mlcp/src/main/java/com/marklogic/contentpump/DelimitedJSONReader.java:92-94 | two generated ids are equal only for the same seed and the same call number |
| Ids.GeneratedIdsGloballyUnique | trunk/mlcp/src/main/java/com/marklogic/contentpump/DelimitedJSONReader.java:92-94 | ids from readers of different splits never collide: equal ids mean the same path, the same start and the same call number |

## Left out

- `getProgress` (lines 78-81) divides as floating point. It is not modelled. The model keeps `bytesRead` and `totalBytes` exact. Progress can pass 1: bytes are counted per keyed line, and nothing bounds them by the split's length.
- `close` (lines 67-76), file system access, the input stream and its charset, `initFileStream` and `configFileNameAsCollection` (lines 124-131) are Hadoop I/O. A file is modelled as its sequence of lines, and opening a file resets the line position.
- `initConfig` and the configuration keys are not modelled; the two settings read there are a `Conf` value.
- The Jackson parser is a parameter. Its handling of trailing text after a document is not modelled.
- A document that repeats a name inside one object is outside the model. The mapper's map keeps the last value, at the position of the name's first entry, and queues only that value's children. The model's `Get` reads the first binding, and `FieldChildren` queues the children of every entry. The two agree on objects with distinct names (`FirstBindingIsLast`).
- Numbers in a document are integers. `toString` of floating-point and big-decimal values is not modelled.
- `IdGenerator` is not part of this model. Its n-th `incrementAndGet()`, counted from 1, is taken to be the seed, a dash and the decimal text of n.
- `bytesRead` is an unbounded integer. The `long` overflow of the source is not modelled.
- `getEncodedURI` and `line.getBytes().length` are parameters whose code is not part of this model.
- Logging and the line numbers it reports are left out.
- A file iterator that fails, and any other `IOException` from the file system, are left out.
- ContentPump.DelimitedJsonReader.Initialize: a directory split that holds no file is outside the model (its `requires` asks for at least one file). Line 106 calls the file iterator's `next()` without asking whether a file exists, so the outcome depends on the file iterator, whose code is not part of this model.
- A value holder that is `ContentWithFileNameWritable` wrapping `Text` is folded into `valueIsText`.
