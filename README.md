# CottageBooking mediator and booking service: a verified model

CottageBooking has two web applications.

- **The booking service** (`app.py`, `rdf_operations.py`) searches a cottage catalog. It takes a requested start date, a shift tolerance of ±N days and a few criteria. It selects cottages with a SPARQL query whose FILTER clauses compare the catalog's start dates as `YYYY-MM-DD` text. Its result page lists, for every cottage row, each day of the shift window that falls inside that cottage's availability interval.
- **The mediator** (`mediator_app.py`) talks to a booking service through RDF graphs:
  1. It fetches the service's description graph (RDG).
  2. It replaces empty `xsd:int` and `xsd:dateTime` placeholders with sentinels.
  3. It writes the booking form onto every `cot:BookingRequest` node with rdflib's `set`.
  4. It turns sentinels back into empty literals and posts the result as the request graph (RIG).
  5. It flattens the first `sswap:mapsTo` node of the answer (RRG) into a dictionary.
  6. It lists one booking option for every day of the shift window.
- **Ontology alignment** (also in `mediator_app.py`) scores every mapping predicate of the mediator's own RDG against every mapping predicate of an external RDG. It ranks the candidates, preselects the best one, and saves the chosen pairs as `owl:sameAs` Turtle lines.

The model follows the code's own shape:

- The mediator's graph steps are methods on an rdflib-like `Graph` class whose `triples` set they update in place. Each step is proved to meet a specification. For postprocessing and the form update, the new graph equals a function of the old one. For preprocessing, the new graph satisfies a relation to the old one that holds in every visit order.
- The day-by-day walks are `while` loops with invariants.
- The date arithmetic, the date-range computation and the FILTER conjunction are functions with lemmas.

Dates are proleptic Gregorian day numbers, as in Python's `date.toordinal`: 0001-01-01 is day 1 and 9999-12-31 is day 3652059. A day outside that range is Python's `OverflowError`.

Modules, in dependency order:

| module | file | models |
|---|---|---|
| `Wrappers` | `wrappers.dfy` | `Option`, `Result`, and the error kinds: a `ValueError` from `strptime` or `int`, and an `OverflowError` from date arithmetic |
| `CivilDate` | `civil_date.dfy` | civil dates and day numbers: `toordinal`, `fromordinal`, `+ timedelta(days=n)` |
| `DateText` | `date_text.dfy` | `strptime(s, '%Y-%m-%d')`, `strftime('%Y-%m-%d')`, `int(s)`, `str(n)`, and string order |
| `BookingWindow` | `booking_window.dfy` | the window `start - shift .. start + shift` and its overlap with an interval |
| `RdfOperations` | `rdf_operations.dfy` | `calculate_date_range` and the FILTER conjunction of `execute_sparql_query` |
| `CottageSearch` | `cottage_search.dfy` | the listing loop of `search_cottages` |
| `RdfGraph` | `rdf_graph.dfy` | RDF terms, triples, and the `Graph` class with `add`, `remove`, `set` and `+=` |
| `RigPreparation` | `rig_preparation.dfy` | `preprocess_rdg`, `update_graph_with_form_data`, `postprocess_rig`, the form dictionary, and the RIG preparation of `submit_request` |
| `RrgExtraction` | `rrg_extraction.dfy` | `extract_data_from_rrg` |
| `ShiftedResults` | `shifted_results.dfy` | `generate_shifted_booking_results`, as records instead of HTML |
| `Alignment` | `alignment.dfy` | `align_terms`, the ranking and the default in `perform_alignment`, and the Turtle text of `save_alignment` |
| `SubmitRequest` | `submit_request.dfy` | the endpoints and the whole `submit_request` exchange |

## Model

| member | source | states |
|---|---|---|
| `CivilDate.Ordinal` | rdf_operations.py:13-15 | a valid date has a day number between 1 and the last day of year 9999 |
| `CivilDate.FromOrdinal` | rdf_operations.py:14-16 | every day number in range is the day number of exactly the valid date returned |
| `CivilDate.FromOrdinalOfOrdinal` | rdf_operations.py:14-16 | going from a date to its day number and back gives the same date |
| `CivilDate.OrdinalOrder` | app.py:69 | one day number is smaller than another exactly when its date comes earlier (year, then month, then day) |
| `CivilDate.OrdinalInjective` | app.py:86 | two valid dates with the same day number are the same date |
| `CivilDate.AddDays` | rdf_operations.py:14-15 | `d + timedelta(days=n)`: succeeds exactly when the result is in the calendar, and then moves the day number by `n`; otherwise it is an overflow error |
| `CivilDate.AddDaysInverse` | rdf_operations.py:14-15 | adding `n` days and then `-n` days returns the original date |
| `DateText.Format` | rdf_operations.py:16 | `%Y-%m-%d` text is 10 characters with dashes at positions 4 and 7 |
| `DateText.ParseDate` | rdf_operations.py:13 | `strptime` yields only valid dates; any text it rejects is a malformed-date error naming that text |
| `DateText.ParseFormat` | rdf_operations.py:13-16 | parsing the formatted text of a date gives back that date |
| `DateText.FormatParse` | rdf_operations.py:13-16 | a parsed 10-character all-digit-field date formats back to the same text |
| `DateText.PadOrder` | rdf_operations.py:16 | zero-padded numbers of equal width compare as text exactly as they compare as numbers |
| `DateText.FormatOrder` | rdf_operations.py:43 | formatted dates compare as text exactly as their day numbers compare |
| `DateText.LexLeReflexive` | rdf_operations.py:43 | text comparison `<=` is reflexive |
| `DateText.LexLeAntisymmetric` | rdf_operations.py:43 | texts that are `<=` each other are equal |
| `DateText.LexLeTransitive` | rdf_operations.py:43 | text comparison `<=` is transitive |
| `DateText.LexLeTotal` | rdf_operations.py:43 | any two texts are comparable |
| `DateText.ParseInt` | rdf_operations.py:12 | text that `int()` rejects is a not-an-integer error naming that text |
| `DateText.ParseIntDigits` | rdf_operations.py:12 | `int()` of a non-empty digit string is its decimal value |
| `DateText.ParseIntNegative` | rdf_operations.py:12 | `int()` of `-` followed by digits is the negated value |
| `DateText.NatToString` | mediator_app.py:137 | `str(n)` of a natural number is a non-empty digit string |
| `DateText.NatToStringValue` | mediator_app.py:137 | the digits of `str(n)` denote `n` |
| `DateText.ParseIntOfIntToString` | mediator_app.py:137-144 | `int(str(n)) == n` for every integer, negative ones included |
| `BookingWindow.WindowAround` | mediator_app.py:82-83 | both ends are `requested ∓ shift`; the window exists exactly when both ends stay in the calendar, otherwise it is an overflow error |
| `BookingWindow.WindowAroundIsTimedelta` | mediator_app.py:82-83 | the window's ends are the dates `start ∓ timedelta(days=shift)`, and the window exists exactly when both additions succeed |
| `BookingWindow.ShiftWindow` | mediator_app.py:81-83 | the error is malformed-date when the start does not parse, and overflow when it parses but an end leaves the calendar; otherwise the ends are `start ∓ shift` |
| `BookingWindow.Range` | app.py:64-65 | the days `lo..hi` in order, without gaps, and none when `hi < lo` |
| `BookingWindow.RangeMembers` | app.py:65 | a day is in the range exactly when it lies between the bounds |
| `BookingWindow.OverlapMembers` | app.py:65-69 | the overlap holds exactly the days inside both the window and the cottage's interval, ascending one day at a time |
| `BookingWindow.OverlapStep` | app.py:69 | one more window day adds itself to the overlap exactly when it lies in the interval |
| `RdfOperations.CalculateDateRange` | rdf_operations.py:10-16 | succeeds exactly when the shift is an integer, the start parses and both ends stay in the calendar; each failure gives its own error, in the order the code meets them |
| `RdfOperations.DateRangeIsTimedelta` | rdf_operations.py:14-16 | the two strings are the formatted dates `start - timedelta(days=shift)` and `start + timedelta(days=shift)` |
| `RdfOperations.DateRangeSpan` | rdf_operations.py:12-16 | both ends parse back to `start - shift` and `start + shift`; for a non-negative shift the earliest is `<=` the latest as text |
| `RdfOperations.SelectCottages` | rdf_operations.py:37-43 | keeps exactly the catalog cottages that pass all seven filters, each as often as the catalog lists it |
| `RdfOperations.ExecuteSparqlQuery` | rdf_operations.py:18-43 | succeeds exactly when the date range does, and then returns exactly the catalog cottages that pass the filters |
| `RdfOperations.DateFilterMeansWindow` | rdf_operations.py:43 | for a canonically written start date, the string filter holds exactly when that day lies within `start ± shift` |
| `RdfOperations.ShiftMonotone` | rdf_operations.py:14-15 | a wider shift never drops a cottage |
| `RdfOperations.CriteriaMonotone` | rdf_operations.py:37-42 | looser places, bedrooms, days and distances never drop a cottage, and stricter ones never add one |
| `RdfOperations.ZeroShiftExact` | rdf_operations.py:43 | with shift 0 the date filter keeps exactly the cottages whose start text is the canonical text of the requested date |
| `CottageSearch.SearchWindowIsShiftWindow` | app.py:60-62 | read with `strptime`, the listing's window is the shift window |
| `CottageSearch.Entry` | app.py:70-88 | an entry has the given index and start day, and its period ends `duration - 1` days later; the label is "Booking Start Date" exactly when the day is the requested one; the image appears exactly when `hasImageURL` is present and non-empty |
| `CottageSearch.ListingEntries` | app.py:64-92 | the j-th entry of a row is the entry for the j-th overlapping day |
| `CottageSearch.RowDays` | app.py:64-92 | a row lists exactly the window days inside its interval, ascending one day at a time, numbered on from the running index, each period ending inside the calendar |
| `CottageSearch.RowExactOnce` | app.py:86 | a row has at most one unshifted entry, and has one exactly when the requested day lies in both the window and the interval |
| `CottageSearch.RowIndices` | app.py:90 | a row's entries are numbered consecutively from the index it starts at |
| `CottageSearch.ListingIndices` | app.py:58-90 | the index starts at 1 and grows by one per entry, across all rows |
| `CottageSearch.ListingCount` | app.py:59-92 | the number of entries is the sum over rows of the overlap sizes |
| `CottageSearch.EmptyWindowLists` | app.py:65 | an empty window lists nothing for any rows |
| `CottageSearch.NegativeShiftEmpty` | app.py:61-65 | a negative shift lists nothing |
| `CottageSearch.ListingErrorStays` | app.py:59-67 | an exception on one row ends the whole listing with that error |
| `CottageSearch.ListingOverflow` | app.py:85 | a booking period that ends outside the calendar is an overflow error |
| `CottageSearch.WalkRow` | app.py:64-92 | the `while` loop over the window for one row produces the row's specified outcome |
| `CottageSearch.ListRows` | app.py:59-92 | the loop over all rows produces the specified listing, with indices `1, 2, …` |
| `CottageSearch.SearchCottages` | app.py:58-94 | `search_cottages` with `strptime` dates gives the specified listing, with indices `1, 2, …` |
| `RdfGraph.SetTriple` | mediator_app.py:36 | after `set((s, p, o))` the pair `(s, p)` has exactly the object `o`, and every triple on another pair is present exactly when it was before |
| `RdfGraph.CotIsNotType` | mediator_app.py:53-56 | no `COT[name]` property is `rdf:type` |
| `RdfGraph.CotInjective` | mediator_app.py:56 | distinct form keys give distinct `COT` properties |
| `RdfGraph.Graph.constructor` | mediator_app.py:148 | a new graph holds the given triples |
| `RdfGraph.Graph.Add` | mediator_app.py:46 | `add` inserts one triple |
| `RdfGraph.Graph.Remove` | mediator_app.py:45 | `remove` deletes one triple |
| `RdfGraph.Graph.Set` | mediator_app.py:56 | `set` changes the triples to the `SetTriple` result |
| `RdfGraph.Graph.AddAll` | mediator_app.py:149 | `+=` adds every triple of the other graph |
| `RigPreparation.PreprocessRdg` | mediator_app.py:32-38 | a pair that carried an empty `xsd:int` or `xsd:dateTime` literal ends with exactly one object, the sentinel of one of its placeholders' datatypes; every triple on another pair is untouched |
| `RigPreparation.SetTripleElsewhere` | mediator_app.py:36-38 | `set` on one pair leaves the objects of every other pair alone |
| `RigPreparation.PreprocessVisitKeeps` | mediator_app.py:33-38 | visiting one more triple, in any order, keeps the description of the loop's state |
| `RigPreparation.Postprocessed` | mediator_app.py:41-49 | every triple whose object looks unset is replaced by the same pair with `Literal("")`; every other triple stays; no unset-looking object remains; every new triple is a blanked one |
| `RigPreparation.PostprocessVisit` | mediator_app.py:42-49 | one visited triple that looks unset is removed and its blanked form added; any other triple changes nothing |
| `RigPreparation.PostprocessedAll` | mediator_app.py:42-49 | once every triple of the copy is visited, the graph is the postprocessed one |
| `RigPreparation.PostprocessRig` | mediator_app.py:41-49 | the loop over `list(rig_graph)` leaves exactly the postprocessed graph, whatever the visiting order |
| `RigPreparation.PostprocessIdempotent` | mediator_app.py:41-49 | postprocessing twice equals postprocessing once |
| `RigPreparation.PostprocessKeepsSetObjects` | mediator_app.py:43-49 | a pair whose objects all look set keeps exactly those objects |
| `RigPreparation.PostprocessBlanksPair` | mediator_app.py:44-49 | a pair with a single unset-looking object ends with `Literal("")` as its only object |
| `RigPreparation.PlaceholderComesBackUntyped` | mediator_app.py:32-49 | a typed empty placeholder comes back as the untyped `Literal("")`, the only object on its pair, not as the typed literal it was |
| `RigPreparation.GenuineZeroBlanked` | mediator_app.py:44-46 | a genuine `0^^xsd:int` is blanked like a sentinel |
| `RigPreparation.OverwrittenNothing` | mediator_app.py:54-55 | writing no keys changes nothing |
| `RigPreparation.OverwrittenNoSubjects` | mediator_app.py:53 | with no booking requests nothing changes |
| `RigPreparation.OverwriteKey` | mediator_app.py:54-56 | one more `set` in the inner loop extends the written keys by that key |
| `RigPreparation.OverwriteSubject` | mediator_app.py:53-56 | one more booking request in the outer loop extends the written subjects by it |
| `RigPreparation.WriteForm` | mediator_app.py:54-56 | the inner loop writes every non-empty form value onto one subject, in any key order |
| `RigPreparation.WriteRequests` | mediator_app.py:53-56 | the outer loop writes the form onto every collected subject, in any order |
| `RigPreparation.UpdateGraphWithFormData` | mediator_app.py:52-56 | the graph becomes the form-updated graph |
| `RigPreparation.FormValueWritten` | mediator_app.py:52-56 | each booking request ends with exactly one object, `Literal(v)`, for each key with a non-empty value `v` |
| `RigPreparation.FormUpdateFrame` | mediator_app.py:52-56 | a triple is unchanged when its subject is no booking request or its predicate is not a non-empty key's property |
| `RigPreparation.EmptyFormNoChange` | mediator_app.py:55 | a form whose values are all empty changes nothing |
| `RigPreparation.FormUpdateKeepsRequests` | mediator_app.py:53-56 | the writes leave the set of booking requests as it was |
| `RigPreparation.FormData` | mediator_app.py:135-145 | the dictionary has exactly the nine form keys, and the three text fields are copied verbatim |
| `RigPreparation.FormDataNumbers` | mediator_app.py:137-144 | each of the six numeric fields holds `str(n)` of the form's number, and `int()` reads that number back |
| `RigPreparation.NumericFieldsWritten` | mediator_app.py:137-144 | every numeric field's text is non-empty, so it is always written, even a zero |
| `RigPreparation.PrepareRig` | mediator_app.py:128-159 | the RIG is the preprocessed RDG, copied, updated with the form and postprocessed |
| `RigPreparation.FormValuesSurvive` | mediator_app.py:158-159 | postprocessing keeps every written form value: each booking request still has exactly `Literal(v)` for every non-empty key |
| `RrgExtraction.LocalNameSuffix` | mediator_app.py:72 | `split('#')[-1]` is the longest suffix without `#` |
| `RrgExtraction.LocalNameAfterHash` | mediator_app.py:72 | the local name of `prefix#name` is `name` when `name` has no `#` |
| `RrgExtraction.FirstMapsTo` | mediator_app.py:65-67 | nothing exactly when there is no `mapsTo` triple, otherwise the object of the first one |
| `RrgExtraction.FirstAt` | mediator_app.py:65-67 | a `mapsTo` triple with none before it is the one picked |
| `RrgExtraction.FlattenKeys` | mediator_app.py:71-73 | the keys are exactly the local names of the predicates on the node |
| `RrgExtraction.LastWrite` | mediator_app.py:71-73 | the position of the last triple on the node writing a key, with none after it |
| `RrgExtraction.FlattenLastWins` | mediator_app.py:71-73 | a key is present exactly when some triple writes it, and its value is `str(o)` of the last such triple |
| `RrgExtraction.NoMapsToNothing` | mediator_app.py:69-77 | with no `mapsTo` triple the result is empty |
| `RrgExtraction.ExtractDataFromRrg` | mediator_app.py:58-77 | the loop with `break` plus the flattening loop compute the specified dictionary |
| `ShiftedResults.WalkWindow` | mediator_app.py:86-105 | the `while` loop succeeds exactly when every period and the final step stay in the calendar, and then gives one option per window day: index `i + 1`, start `lo + i`, end `start + duration - 1`, and the cottage data |
| `ShiftedResults.GenerateShiftedBookingResults` | mediator_app.py:79-106 | `2 * shift + 1` options (none for a negative shift), ascending from `start - shift` and numbered from 1; a malformed start date or an overflow is an error |
| `Alignment.EnumerationSize` | mediator_app.py:188-192 | an enumeration of a set lists as many elements as the set has |
| `Alignment.AlignTerms` | mediator_app.py:187-194 | one key per distinct text of graph 1's mapping predicates; each list has one candidate per mapping predicate of graph 2 |
| `Alignment.AlignedCandidates` | mediator_app.py:191-193 | each key's candidates are exactly the pairs `(str(p2), ratio(key, str(p2)))` for graph 2's mapping predicates |
| `Alignment.RankDescending` | mediator_app.py:227 | the sorted list is in non-increasing score order |
| `Alignment.RankPermutation` | mediator_app.py:227 | the sorted list is a permutation of the candidates |
| `Alignment.RankStable` | mediator_app.py:227 | candidates with equal scores keep their original order, as Python's sort is stable |
| `Alignment.DefaultIsBest` | mediator_app.py:228 | the default is `""` for no candidates; otherwise it is the term of a candidate that no other candidate outscores |
| `Alignment.TtlDocumentAppend` | mediator_app.py:252-253 | one more pair appends exactly its `sameAs` line |
| `Alignment.SaveAlignmentTtl` | mediator_app.py:251-253 | the loop produces one `<a> <owl:sameAs> <b> .` line per pair, in order |
| `Alignment.TtlRoundTrip` | mediator_app.py:251-253 | reading the text back line by line recovers exactly the pairs, in order |
| `SubmitRequest.RStripSlash` | mediator_app.py:125 | `rstrip('/')` gives a prefix without a trailing slash, and only slashes were removed |
| `SubmitRequest.RdgEndpoint` | mediator_app.py:125 | the endpoint ends in `/rdg`, with no slash before it unless the base is empty; its base is the URL with only trailing slashes removed |
| `SubmitRequest.ProcessRigDoubleSlash` | mediator_app.py:164 | as written, `http://h/` yields `http://h//process_rig`, unlike `http://h`; the RDG endpoint is the same for both |
| `SubmitRequest.ProcessRigEndpoint` | mediator_app.py:164 | corrected like line 125: ends in `/process_rig` with no slash before it; its base is the URL with only trailing slashes removed |
| `SubmitRequest.EndpointsIgnoreTrailingSlash` | mediator_app.py:125 | a trailing slash changes neither endpoint, and both share one base |
| `SubmitRequest.SubmitBookingRequest` | mediator_app.py:112-174 | a failed RDG fetch is the RDG error page; otherwise the RIG posted is the prepared one, the RIG is posted to `url + "/process_rig"` as written, a failed post is the processing error page, and a reply gives exactly the shifted options for the extracted cottage data |

## Left out

- HTTP transport, FastAPI routes, templates, `uvicorn` and the `print` calls (mediator_app.py:70, 74, 76, 163) are left out. The two exchanges of `submit_request` are function parameters that return the parsed graph of a 200 response, or nothing. `perform_alignment`'s fetch, its parse errors and its reading of `RDG.ttl` are not modelled.
- Turtle parsing and serialisation, and namespace binding, are rdflib's. The RDG and RRG enter as parsed triples. The RIG leaves as a set of triples.
- rdflib's coercion of `Literal.value` is left out; a literal carries only its lexical form and its datatype. The consequences:
  - the `o.value == ""`, `o.value == "0"` and `startswith` tests of `preprocess_rdg` and `postprocess_rig` compare that lexical form;
  - the `o.value is None` disjuncts never fire;
  - with real rdflib, an empty `xsd:int` has value `None` and `"0"^^xsd:int` has the Python int `0`, so some of those tests compare unlike types;
  - with real rdflib, `o.value == ""` (mediator_app.py:33) is never true for an empty typed literal, whose value is `None`, so `preprocess_rdg` would write no sentinel; the model's placeholders are found by their empty lexical form;
  - with real rdflib, a parsed `xsd:dateTime` value is a `datetime`, and `o.value.startswith(...)` (mediator_app.py:47) raises `AttributeError` on it; the model applies `startswith` to the lexical form and never fails.
- `RigPreparation.PreprocessRdg` and `RigPreparation.PostprocessRig` iterate over a snapshot of the triples in an order the model leaves open. rdflib may reflect `set` during live iteration. The model proves properties that hold for every order.
- `Alignment.AlignTerms` takes the iteration order of graph 2's predicate set as a parameter. The order of graph 1's keys and of the saved form fields is the order of the map and of the pair sequence.
- `RrgExtraction.ExtractDataFromRrg` takes the store's triple order as a parameter. That one order serves both the `mapsTo` lookup (mediator_app.py:65) and `predicate_objects` (mediator_app.py:71), though rdflib's indexes may order them independently. Its test `if maps_to_node:` is modelled as a non-empty lexical form. rdflib also treats a literal whose Python value is false, such as `"0"^^xsd:int`, as absent; this follows from the lexical-literal model above and is not modelled.
- The SPARQL engine is not modelled. `RdfOperations.SelectCottages` states the FILTER conjunction of rdf_operations.py:37-43 directly over `Cottage` records. The criteria are interpolated into the query text unescaped (rdf_operations.py:37-43), so a `"` in `city` makes `graph.query` raise a parse error; this is not modelled. The FILTERs compare typed literals in SPARQL, with its numeric promotion and type errors; the model's `Cottage` fields are integers, and those comparisons are left out.
- `Levenshtein.ratio` is a C library returning floats. It is a `Ratio` function parameter, and no property depends on its values.
- The HTML is left out: markup, `'Not available'` defaults, the `selected` attribute and the score formatting. Entries are records.
- UUID booking numbers, `datetime.now()` file names, `os.makedirs` and the file write of `save_alignment` are left out.
- The float form fields of `app.py` are integers.
- `DateText.ParseDate` and `DateText.ParseInt` accept only ASCII digits, and `DateText.ParseInt` strips only the six ASCII blanks. CPython's `strptime` (`\d` in `%Y`, `%m`, `%d`) and `int()` also accept other Unicode decimal digits, and `int()` also strips Unicode whitespace such as `\xa0`, `\x1c`–`\x1f` and U+2003. The model rejects such text with a malformed-date or not-an-integer error.
- `DateText.ParseInt` has no digit limit. Since Python 3.11, `int()` raises `ValueError` for more than 4300 digits. The model parses such a number, and an oversized shift then fails as an overflow instead of a not-an-integer error.
- `strftime('%Y')` is modelled as four zero-padded digits. glibc does not pad years below 1000.
- `CottageSearch.WalkRow`, `CottageSearch.ListRows` and the lemmas about them take any date reader (`DayReader`). `CottageSearch.SearchCottages` instantiates that reader with `strptime`. This keeps the date parser out of the loop proofs.
- The call at `app.py:53-56` passes its arguments in an order that does not match `rdf_operations.py:18`. The listing loop is modelled over rows carrying the fields it reads, and the filter is modelled on its own.
- `parse_rig` (`app.py:97-113`) is called but never defined, so it is not part of this model. Neither are `mediator.py`, `rdf_creation.py`, `fakeservice.py` or `test_rig_parser.py`.
- `Alignment.TtlRoundTrip` requires that no base term contains `>` and that no term contains a line break. `save_alignment` escapes nothing, so such terms do not read back.
- The model follows the code as written:
  - preprocessing mutates the RDG in place;
  - postprocessing writes an untyped `Literal("")`;
  - the booking service filters on the start date text and on `availableDays`, not on interval intersection;
  - the extractor takes the first `mapsTo` triple and signals "no result" only by an empty dictionary;
  - the ranking breaks ties by candidate order, not lexically;
  - the mediator lists every window day without an availability check and labels every one "Shifted Booking Start Date", so `BookingOption` carries no label.
- `SubmitRequest.SubmitBookingRequest` posts to the endpoint as written, `url + "/process_rig"`. The corrected `SubmitRequest.ProcessRigEndpoint` (see Findings) stands beside it and is not used by the pipeline.

## Findings

| source | as written | input that shows it | evidently intended | confidence | as-written member | corrected member |
|---|---|---|---|---|---|---|
| mediator_app.py:164 | the RIG is posted to `booking_service_url + "/process_rig"`, without the `rstrip('/')` that line 125 applies for the RDG | `booking_service_url = "http://h/"` gives `http://h//process_rig`, while the RDG comes from `http://h/rdg` | strip trailing slashes as on line 125, giving `http://h/process_rig` | not executed | `SubmitRequest.ProcessRigDoubleSlash` | `SubmitRequest.EndpointsIgnoreTrailingSlash` |
