# HackNasa: a Dafny model of the exoplanet explorer's logic

HackNasa is an exoplanet explorer in two parts:

- an iPad/macOS SwiftUI client. It guides the user through an onboarding, a hyper-parameter form and a CSV prompt, then shows planet records and the trained model's precision report.
- a Flask backend (`backend/nasa.py`, `backend/imageGen.py`). It trains a random-forest classifier on a Kepler KOI table and serves planet entries and the precision report. It can also generate and serve planet images.

This project models the deterministic logic between those pieces.

Client side:

- the numeric-input sanitiser and the two onboarding state machines (`DataLoadingView`, `OnboardingView`);
- the tolerant `GeneralDataset` decoder and the `ModelPrecision` decoder with its accessors;
- the endpoint table of `Repository.swift`: paths, default methods, default headers, URLs and both request builders;
- the selection state of `HomeViewModel`.

Server side:

- the row-to-entry projection with its null-safe conversions;
- the hyper-parameter update of the shared configuration and the training settings read back from it;
- the retrain flag and upload-filename rules;
- the KOI lookup;
- the precision-report partition;
- the image endpoints' lookup and candidate order;
- the image generator's filename sanitiser, response classifier and early-exit decisions.

One module per source file, plus these supporting modules:

- `Wrappers`: `Option`/`Result`.
- `Text`:
  - decimal rendering and its round trip;
  - ASCII case mapping;
  - Python's `strip`;
  - filters and subsequences;
  - POSIX path joining.
- `Json`: a JSON value whose objects keep their members in order, where a lookup answers the last duplicate. It also has a token-level parser and serializer, proved to round-trip.
- `Py`: Python truthiness, `int()` truncation, and the `int()`/`float()`/`str()` conversions. Those conversions are a parameter record `Conversions`.
- `SwiftJson`: what Swift's `JSONDecoder` accepts for `Int`, `Double`, `String`, optional keys, arrays and dictionaries.
- `CrossChecks`: what happens when one side's output is fed to the other side's reader.

The view states that SwiftUI mutates (`@State`, `@Published`) are fields of Dafny classes. Their button actions are methods with `modifies` clauses. The sanitiser's character loop and the server's partition loop are methods with loops, proved against specification functions. Everything else is functions on values.

## Model

| member | source | states |
|---|---|---|
| DataLoadingView.DropLaterDots | HackNasa/Features/Onboarding/Views/DataLoadingView.swift:331-339 | the loop's effect after the first dot: never longer than its input and keeps only characters of it |
| DataLoadingView.Sanitize | HackNasa/Features/Onboarding/Views/DataLoadingView.swift:328-341 | the character loop with its `dotFound` flag computes exactly the specification `Sanitized` of the field's text |
| DataLoadingView.DropAfterDot | HackNasa/Features/Onboarding/Views/DataLoadingView.swift:331-339 | once a dot has been kept, every later dot is dropped and every digit kept |
| DataLoadingView.SanitizedWithoutDot | HackNasa/Features/Onboarding/Views/DataLoadingView.swift:330-339 | a text without a dot sanitises to exactly its digits |
| DataLoadingView.SanitizedSplitsAtFirstDot | HackNasa/Features/Onboarding/Views/DataLoadingView.swift:331-339 | with the first dot at k, the result is the digits before k, one dot, and the digits after k |
| DataLoadingView.SanitizedShape | HackNasa/Features/Onboarding/Views/DataLoadingView.swift:330-339 | the result holds only characters of "0123456789." and at most one dot |
| DataLoadingView.SanitizedKeepsDigits | HackNasa/Features/Onboarding/Views/DataLoadingView.swift:328-341 | every digit of the input survives, in order, and no digit is invented |
| DataLoadingView.SanitizedIsSubsequence | HackNasa/Features/Onboarding/Views/DataLoadingView.swift:328-341 | the result is an order-preserving subsequence of the input |
| DataLoadingView.SanitizedIdempotent | HackNasa/Features/Onboarding/Views/DataLoadingView.swift:328-341 | sanitising twice equals sanitising once |
| DataLoadingView.DataLoadingScreen.constructor | HackNasa/Features/Onboarding/Views/DataLoadingView.swift:12-60 | the screen starts in the onboarding phase at step 0 with empty fields, zero stored values and no file chosen |
| DataLoadingView.DataLoadingScreen.CurrentTitle | HackNasa/Features/Onboarding/Views/DataLoadingView.swift:17-46 | the current step always indexes one of the four step titles |
| DataLoadingView.DataLoadingScreen.Previous | HackNasa/Features/Onboarding/Views/DataLoadingView.swift:156-170 | decrements the step only when it is positive, exactly when the button is enabled; nothing else changes |
| DataLoadingView.DataLoadingScreen.Next | HackNasa/Features/Onboarding/Views/DataLoadingView.swift:172-180 | below the last step it advances by one; at the last step the step stays and the phase becomes the form, so the step stays within 0..3 |
| DataLoadingView.DataLoadingScreen.Edit | HackNasa/Features/Onboarding/Views/DataLoadingView.swift:216-218 | typing into a field stores the sanitised text in that field only |
| DataLoadingView.DataLoadingScreen.Submit | HackNasa/Features/Onboarding/Views/DataLoadingView.swift:343-357 | with a field that does not parse nothing changes (the disabled button); otherwise the three parsed values are stored and the phase becomes loading, and that happens exactly when the form is valid |
| DataLoadingView.DataLoadingScreen.LoadingFinished | HackNasa/Features/Onboarding/Views/DataLoadingView.swift:358-363 | the end of the pause moves loading to the CSV prompt and changes nothing else |
| DataLoadingView.DataLoadingScreen.OpenImporter | HackNasa/Features/Onboarding/Views/DataLoadingView.swift:247-249 | the upload button presents the file importer |
| DataLoadingView.DataLoadingScreen.ImporterCompleted | HackNasa/Features/Onboarding/Views/DataLoadingView.swift:263-274 | a successful import selects the first URL (none for an empty list), a failure clears the selection, and the importer closes |
| DataLoadingView.DataLoadingScreen.Execute | HackNasa/Features/Onboarding/Views/DataLoadingView.swift:289-293 | "Ejecutar" ends the onboarding of the shared session |
| DataLoadingView.HappyPath | HackNasa/Features/Onboarding/Views/DataLoadingView.swift:343-365 | four Next presses, three edits whose sanitised texts parse, a submit and the pause end at the CSV prompt on the last step with the three parsed values stored |
| OnboardingView.OnboardingViewModel.constructor | HackNasa/Features/Onboarding/ViewModel/OnboardingViewModel.swift:11-15 | a session starts not loading and showing the onboarding |
| OnboardingView.CtaPressed | HackNasa/Features/Onboarding/Views/OnboardingView.swift:56-65 | one press never lowers the step or leaves the three steps; the navigation flag changes only at the last step, where the step stays |
| OnboardingView.CtaPresses | HackNasa/Features/Onboarding/Views/OnboardingView.swift:56-65 | any number of presses keeps the step within the three steps |
| OnboardingView.PressesFromStart | HackNasa/Features/Onboarding/Views/OnboardingView.swift:56-65 | from the start, n presses reach step min(n, 2), and navigation is requested exactly when n > 2 |
| OnboardingView.PressesFrom | HackNasa/Features/Onboarding/Views/OnboardingView.swift:56-65 | the closed form of n presses from any step |
| OnboardingView.OnboardingScreen.constructor | HackNasa/Features/Onboarding/Views/OnboardingView.swift:4-5 | the screen starts at step 0 without navigation |
| OnboardingView.OnboardingScreen.CurrentCta | HackNasa/Features/Onboarding/Views/OnboardingView.swift:8-56 | the current step always indexes one of the three steps |
| OnboardingView.OnboardingScreen.Cta | HackNasa/Features/Onboarding/Views/OnboardingView.swift:56-65 | the button advances below step 2 and sets the navigation flag at step 2; the step never decreases |
| GeneralDataset.StringValueInjective | HackNasa/Data/API/Model/GeneralDataset.swift:26-39 | the coding keys map one-to-one to JSON keys |
| GeneralDataset.DecodeId | HackNasa/Data/API/Model/GeneralDataset.swift:44-48 | `kepid` decodes when it is a Swift Int or a string and fails otherwise; a string is kept unchanged |
| GeneralDataset.DecodeIdentity | HackNasa/Data/API/Model/GeneralDataset.swift:44-53 | succeeds exactly when the identifier decodes, `kepoi_name` is a string and `kepler_name`/`name` are absent, null or strings; the name falls back name → kepler_name → kepoi_name |
| GeneralDataset.DecodeMeasurements | HackNasa/Data/API/Model/GeneralDataset.swift:55-62 | succeeds exactly when the seven measurements are numbers (and the disposition a string), giving seven values: those decoded under `koi_steff`, `koi_duration`, `koi_srad`, `koi_slogg`, `koi_model_snr`, `koi_depth` and `koi_period`, in that order |
| GeneralDataset.DecodeRecord | HackNasa/Data/API/Model/GeneralDataset.swift:41-63 | a record decodes exactly when it is an object whose identity and measurements decode, and each field holds the value decoded under its own coding key |
| GeneralDataset.MissingMeasurementRejected | HackNasa/Data/API/Model/GeneralDataset.swift:50-62 | a missing measurement, disposition or `kepoi_name` makes decoding fail |
| GeneralDataset.NumericIdIsDecimal | HackNasa/Data/API/Model/GeneralDataset.swift:44-45 | an integer `kepid` is stored as its decimal text |
| GeneralDataset.IdEncodingsAgree | HackNasa/Data/API/Model/GeneralDataset.swift:44-48 | a record with `kepid` n decodes exactly like the record with `kepid` "n" |
| GeneralDataset.SameFieldsSameRecord | HackNasa/Data/API/Model/GeneralDataset.swift:41-63 | two objects that agree on every coding key but `kepid`, and whose identifiers decode alike, decode alike |
| GeneralDataset.OtherIdRejected | HackNasa/Data/API/Model/GeneralDataset.swift:46-48 | a `kepid` that is neither an Int nor a string makes decoding throw |
| GeneralDataset.NameFallback | HackNasa/Data/API/Model/GeneralDataset.swift:52-53 | the display name is `name` if present, else `kepler_name` if present (even empty), else `kepoi_name` |
| GeneralDataset.KeplerNameOptional | HackNasa/Data/API/Model/GeneralDataset.swift:49 | a null or absent `kepler_name` decodes to none |
| GeneralDataset.DecodeDatasets | HackNasa/Features/Home/ViewModels/HomeViewModel.swift:60 | an array decodes exactly when every element decodes, one record per element |
| ModelPrecision.DecodeClassStats | HackNasa/Features/Charts/Models/ModelPrecision.swift:22-34 | class statistics decode exactly when precision, recall and "f1-score" are numbers and support is an Int; `f1Score`, `precision`, `recall` and `support` then hold the values decoded under "f1-score", "precision", "recall" and "support" |
| ModelPrecision.DecodeModelPrecision | HackNasa/Features/Charts/Models/ModelPrecision.swift:11-20 | the report decodes exactly when accuracy is a number, aggregates a dictionary of numbers and "per_class" a dictionary of readable statistics; `accuracy`, `aggregates` and `perClass` then hold what decodes under "accuracy", "aggregates" and "per_class" |
| ModelPrecision.Row | HackNasa/Features/Charts/Models/ModelPrecision.swift:37-40 | a class row is present exactly when its key is in `perClass`, and it is that entry |
| ModelPrecision.AccessorsReadPerClass | HackNasa/Features/Charts/Models/ModelPrecision.swift:37-40 | the four accessors read "CONFIRMED", "FALSE POSITIVE", "macro avg" and "weighted avg" of `perClass`, never of the aggregates |
| ModelPrecision.F1ScoreKeyIsHyphenated | HackNasa/Features/Charts/Models/ModelPrecision.swift:29 | statistics spelled `f1Score` do not decode; "f1-score" is required |
| ModelPrecision.PerClassKeyIsSnakeCase | HackNasa/Features/Charts/Models/ModelPrecision.swift:19 | a report with `perClass` instead of "per_class" does not decode |
| HomeViewModel.DecodeDocument | HackNasa/Features/Home/ViewModels/HomeViewModel.swift:59-60 | a document loads exactly when it parses as JSON and the value decodes as records |
| HomeViewModel.HomeViewModel.constructor | HackNasa/Features/Home/ViewModels/HomeViewModel.swift:12-14 | no files, no selection and no dataset at first |
| HomeViewModel.HomeViewModel.AutomaticSelection | HackNasa/Features/Home/ViewModels/HomeViewModel.swift:78-81 | the first file's id is selected, or none when there are no files |
| HomeViewModel.HomeViewModel.FetchFiles | HackNasa/Features/Home/ViewModels/HomeViewModel.swift:69-77 | the files become exactly "hola.csv", "1.csv", "2.csv", "3.csv" in that order, and the first is selected |
| HomeViewModel.HomeViewModel.FetchDataset | HackNasa/Features/Home/ViewModels/HomeViewModel.swift:58-65 | the dataset becomes the first decoded record only when the document loads, and is unchanged on an error |
| HomeViewModel.EmbeddedDocumentRejected | HackNasa/Features/Home/ViewModels/HomeViewModel.swift:24-28 | the embedded document, whose `kepid` value has no comma after it, fails to parse at "kepler_name", so nothing loads |
| HomeViewModel.LeadingZeroRejected | HackNasa/Features/Home/ViewModels/HomeViewModel.swift:41 | "09876543" is not a JSON number (leading zero), unlike "9876543" |
| HomeViewModel.FirstRecordFields | HackNasa/Features/Home/ViewModels/HomeViewModel.swift:26-39 | the values of the first embedded record |
| HomeViewModel.FirstRecordDecodes | HackNasa/Features/Home/ViewModels/HomeViewModel.swift:26-39 | with the comma added, the first record decodes to id "1234567", name "Kepler-22 b" |
| HomeViewModel.SecondRecordFields | HackNasa/Features/Home/ViewModels/HomeViewModel.swift:40-53 | the values of the second embedded record, for any `kepid` |
| HomeViewModel.SecondRecordDecodes | HackNasa/Features/Home/ViewModels/HomeViewModel.swift:40-53 | with the comma added and the number written 9876543, the second record decodes, its name falling back to "KOI-351.01" |
| HomeViewModel.LoadSerialized | HackNasa/Features/Home/ViewModels/HomeViewModel.swift:59-60 | a serialised value loads exactly as its records decode |
| HomeViewModel.DecodeTwo | HackNasa/Features/Home/ViewModels/HomeViewModel.swift:60 | a two-element array of decodable records decodes to those two records |
| HomeViewModel.CorrectedDocumentLoads | HackNasa/Features/Home/ViewModels/HomeViewModel.swift:24-61 | the document with the commas added loads, and the dataset becomes its first record |
| Repository.Path | HackNasa/Data/Repository/Repository.swift:26-52 | every path is absolute and longer than "/" |
| Repository.DefaultMethod | HackNasa/Data/Repository/Repository.swift:54-63 | POST or GET only |
| Repository.DefaultHeaders | HackNasa/Data/Repository/Repository.swift:65-81 | default headers only ever name Content-Type, X-File-Name or Accept, at most two of them, and X-File-Name exactly on an upload |
| Repository.PrefixedPathsAreNotFixed | HackNasa/Data/Repository/Repository.swift:27-51 | no parameterised path equals a fixed path |
| Repository.KoiPathRoundTrip | HackNasa/Data/Repository/Repository.swift:31 | "/planet/kepoi/" + id is read back as `planetKOI(id)` |
| Repository.SpecificPathRoundTrip | HackNasa/Data/Repository/Repository.swift:41 | "/Gemini/ExplainSpecific/" + name is read back as that endpoint |
| Repository.ImagePathRoundTrip | HackNasa/Data/Repository/Repository.swift:46-48 | "/ExoplanetImage/" + name, without percent-encoding, is read back as that endpoint |
| Repository.SelectPathRoundTrip | HackNasa/Data/Repository/Repository.swift:33 | "/csvs/select/" + name + ".csv" is read back as `selectCSV(name)` |
| Repository.PathRoundTrip | HackNasa/Data/Repository/Repository.swift:26-52 | every endpoint's path identifies the endpoint, except that the upload path does not carry the file name |
| Repository.PathInjective | HackNasa/Data/Repository/Repository.swift:26-52 | two endpoints with the same path are equal, upload endpoints aside |
| Repository.ContentTypeOnlyWhenPosting | HackNasa/Data/Repository/Repository.swift:54-81 | the default method is POST exactly for the four endpoints that send data; a default Content-Type implies POST |
| Repository.UploadHeaders | HackNasa/Data/Repository/Repository.swift:67-71 | an upload's headers are exactly octet-stream Content-Type and "X-File-Name" = the file name |
| Repository.NonUploadHeaders | HackNasa/Data/Repository/Repository.swift:72-80 | JSON Content-Type for hyper-parameters and image generation, JSON Accept for precision, no headers otherwise |
| Repository.UrlOf | HackNasa/Data/Repository/Repository.swift:84-93 | scheme "http", the fixed host, the endpoint's path, and query items only when the query is non-empty |
| Repository.Merge | HackNasa/Data/Repository/Repository.swift:103-117 | the merged keys are the union, and a caller's header wins on a clash |
| Repository.MergeLaws | HackNasa/Data/Repository/Repository.swift:103-117 | merging nothing keeps the defaults, merging into no defaults gives the caller's headers, and merging the same headers again changes nothing |
| Repository.BuildRequest | HackNasa/Data/Repository/Repository.swift:97-107 | the request has the endpoint's URL, its default method, the merged headers and the given body |
| Repository.BuildLegacyRequest | HackNasa/Data/Repository/Repository.swift:110-121 | the request has the caller's method instead of the default one |
| Repository.LegacyAgreesOnDefaultMethod | HackNasa/Data/Repository/Repository.swift:102-116 | the two builders agree exactly when the caller passes the default method |
| Repository.LegacyDefaultIsGet | HackNasa/Data/Repository/Repository.swift:110-116 | the legacy builder with its default GET builds the endpoint's own request exactly when the endpoint does not post |
| Repository.CallerHeaderWins | HackNasa/Data/Repository/Repository.swift:103 | on every endpoint, a caller header overrides the default under the same name and keeps the other defaults |
| Repository.EncodeHyperparams | HackNasa/Data/Repository/Repository.swift:124-128 | the body holds exactly the keys numest, mxdepth, randstate |
| Repository.DecodeHyperparams | HackNasa/Data/Repository/Repository.swift:124-128 | decodes exactly when all three keys hold Swift Ints |
| Repository.HyperparamsRoundTrip | HackNasa/Data/Repository/Repository.swift:124-128 | encoding then decoding gives back the same hyper-parameters |
| NasaEntries.SafeStr | backend/nasa.py:201-204 | a text exactly when the cell is present and not null |
| NasaEntries.SafeNum | backend/nasa.py:206-215 | an integer, a float or null; null for a missing or null cell |
| NasaEntries.SafeId | backend/nasa.py:217-229 | an integer or null; null for a missing or null cell |
| NasaEntries.SafeIdTruncates | backend/nasa.py:223-226 | a non-integral float identifier is truncated toward zero, not rejected |
| NasaEntries.RowToGeneralEntry | backend/nasa.py:235-248 | the entry has exactly the twelve keys, in order |
| NasaEntries.EntryKeysDistinct | backend/nasa.py:235-248 | no key of the entry repeats |
| NasaEntries.EntryField | backend/nasa.py:235-248 | looking up a key of the entry finds the value written under it |
| NasaEntries.EntryNameFallback | backend/nasa.py:231-233 | the name is `kepler_name` unless that is null or empty, then `kepoi_name` |
| NasaEntries.MatchingRows | backend/nasa.py:610-614 | exactly the matching rows: each result row matches, every matching frame row is kept, as many as the frame has, in frame order |
| NasaEntries.KoiLookupIgnoresCase | backend/nasa.py:610-613 | asking in upper case finds the same rows |
| NasaEntries.KoiLookupIgnoresSurroundingSpace | backend/nasa.py:610-613 | whitespace around the requested name does not change the rows found |
| NasaEntries.MissingKoiMatchesNan | backend/nasa.py:613 | a row with a null KOI name reads "nan" and is found by asking for "nan" |
| NasaEntries.Entries | backend/nasa.py:622 | one entry per row, in order |
| NasaEntries.PlanetByKoi | backend/nasa.py:601-623 | 400 exactly without data; an uncaught error (500) exactly when the frame has no `kepoi_name` column; 404 exactly when no row matches; otherwise, and only then, 200 with the entries of the matching rows |
| NasaEntries.PlanetByKoiIgnoresCase | backend/nasa.py:610-622 | the reply does not depend on the case of the request |
| NasaConfig.AsMap | backend/nasa.py:349-352 | the dictionary built by assigning members has exactly their keys |
| NasaConfig.UpdatedNext | backend/nasa.py:349-352 | one more turn of the loop is one more step |
| NasaConfig.HyperparamUpdateOfObject | backend/nasa.py:346-352 | for a dictionary body, `updated` holds exactly the hyper-parameters the body names, in order, with the body's values |
| NasaConfig.HyperparamUpdateKeys | backend/nasa.py:349 | nothing but numest, mxdepth and randstate is ever updated |
| NasaConfig.HyperparamUpdateOfNonObject | backend/nasa.py:346-350 | a body that is not a dictionary updates nothing or raises |
| NasaConfig.UpdatedStaysFailed | backend/nasa.py:349-352 | once a step has raised, the whole loop has raised |
| NasaConfig.MergeSnoc | backend/nasa.py:351 | one more copied member is one more assignment to `cfg` |
| NasaConfig.ServerConfig.constructor | backend/nasa.py:58-65 | the configuration starts at its defaults |
| NasaConfig.ServerConfig.SetHyperparams | backend/nasa.py:346-352 | `cfg` becomes the old `cfg` with exactly the reported updates, and is unchanged when the loop raises |
| NasaConfig.MaxDepthSetting | backend/nasa.py:113 | the depth is unlimited exactly when the setting is None or 0; otherwise it is limited to `int(v)` and fails exactly when `int(v)` raises |
| NasaConfig.ZeroTextIsNotUnlimited | backend/nasa.py:113 | the text "0" is converted like any other value, not taken as unlimited |
| NasaConfig.TrainSettings | backend/nasa.py:110-114 | the settings train_model reads are the configured path and the converted numbers; they exist exactly when all three conversions succeed |
| NasaConfig.DefaultSettings | backend/nasa.py:58-65 | the defaults train 100 trees of depth at most 100 with seed 42 |
| NasaConfig.ZeroDepthUpdate | backend/nasa.py:349-352 | setting mxdepth to 0 through the update lifts the depth limit |
| NasaConfig.AsMapGet | backend/nasa.py:351 | the configuration holds, under each copied key, the value the update last copied for it |
| NasaRequests.FormRetrain | backend/nasa.py:442 | a retrain needs a present form field of one to four characters |
| NasaRequests.QueryRetrain | backend/nasa.py:512-513 | a missing query argument is false |
| NasaRequests.FormAndQueryAgree | backend/nasa.py:511-513 | the two readings of the flag agree on every input |
| NasaRequests.RetrainIgnoresCase | backend/nasa.py:511-513 | the flag ignores the case of the text |
| NasaRequests.RetrainNeedsExactWord | backend/nasa.py:511-513 | no word with a leading or trailing space asks for a retrain, and neither does "on" |
| NasaRequests.BodyRetrain | backend/nasa.py:686 | a body retrain needs a "retrain" key |
| NasaRequests.SelectByNameRetrain | backend/nasa.py:679-686 | the query argument decides when present; otherwise a non-JSON body means false and an object body its `retrain` truthiness; the request fails exactly without the argument and with a malformed or non-object JSON body |
| NasaRequests.QueryWinsOverBody | backend/nasa.py:681-683 | a query argument wins over the body |
| NasaRequests.BodyDecidesWithoutQuery | backend/nasa.py:685-686 | without a query argument an object body decides by Python truthiness |
| NasaRequests.FirstValue | backend/nasa.py:484 | none exactly when no pair matches; otherwise the value of the first matching pair |
| NasaRequests.UploadFilename | backend/nasa.py:484-486 | a non-empty name from the `X-Filename` header or the `filename` argument, else the 400 reply |
| NasaRequests.HeaderWinsOverQuery | backend/nasa.py:484 | a non-empty header wins over the argument |
| NasaRequests.FilenameMissingExactly | backend/nasa.py:484-486 | the upload is refused exactly when both sources are missing or empty |
| NasaRequests.HeaderNameIgnoresCase | backend/nasa.py:484 | the header name may be written in any case |
| NasaPrecision.OptFloat | backend/nasa.py:545-557 | a converted statistic is a float or null; null stays null |
| NasaPrecision.OptInt | backend/nasa.py:545-557 | a converted support is an integer or null; null stays null |
| NasaPrecision.ConvertStats | backend/nasa.py:545-557 | converted statistics have exactly the four keys precision, recall, f1-score, support |
| NasaPrecision.NumbersConvert | backend/nasa.py:545-557 | statistics that are numbers or missing always convert |
| NasaPrecision.Partition | backend/nasa.py:543-558 | the loop computes exactly `PerClassOf` and `AggregatesOf` of the report |
| NasaPrecision.AggregatesAreTheRest | backend/nasa.py:557-558 | the aggregates are exactly the entries that are not class entries, unchanged and in order |
| NasaPrecision.PerClassKeys | backend/nasa.py:544-556 | `per_class` holds the class entries' keys, in order |
| NasaPrecision.SidesCoverReport | backend/nasa.py:543-558 | no entry is lost or counted twice |
| NasaPrecision.SidesComeFromReport | backend/nasa.py:543-558 | every key on either side is a key of the report |
| NasaPrecision.ExactlyOneSide | backend/nasa.py:543-558 | each key lands under `per_class` exactly when its value is a dict with "precision", and under `aggregates` exactly otherwise |
| NasaPrecision.ClassEntryValue | backend/nasa.py:545-556 | a class entry holds its converted statistics, or itself when a conversion raised |
| NasaPrecision.ModelPrecision | backend/nasa.py:527-568 | 400 for missing model info or a report that is not a dict; an uncaught error exactly when the accuracy does not convert; otherwise, and only then, 200 with the partition and the accuracy |
| NasaImages.RowsWithKepid | backend/nasa.py:778 | exactly the rows whose `kepid` equals the requested one: all of them, only them, in frame order |
| NasaImages.SaveName | backend/nasa.py:829-835 | a save name is never empty |
| NasaImages.PlanetImageJob | backend/nasa.py:764-835 | 400 without data; a job exactly when the body is an object selecting a non-empty set of rows whose first has a save name, for that row and under that name; 404 exactly when the selection is empty; the selection's own error otherwise; an uncaught error for a non-object body or a row without a save name |
| NasaImages.MissingQueryRejected | backend/nasa.py:786-787 | a body with neither `kepid` nor a non-empty `kepoi_name` is refused with 400 |
| NasaImages.KepidTakesPrecedence | backend/nasa.py:773-779 | with a `kepid`, a `kepoi_name` beside it is ignored |
| NasaImages.SaveNameOfRow | backend/nasa.py:829-833 | the save name is the KOI name if non-empty, else the display name if non-empty |
| NasaImages.FirstFile | backend/nasa.py:857-862 | the first candidate that is a file; none exactly when none is |
| NasaImages.FirstWithPrefix | backend/nasa.py:864-867 | an entry whose lower-cased name starts with the prefix; none exactly when no entry does |
| NasaImages.FindImage | backend/nasa.py:851-869 | the candidate loop and the prefix loop compute exactly `ImageChoice` |
| NasaImages.PngPreferred | backend/nasa.py:856-857 | a ".png" file wins over every other match |
| NasaImages.CandidateOrder | backend/nasa.py:857-862 | candidates are tried in order .png, .jpg, .jpeg, bare name |
| NasaImages.ServedIsListed | backend/nasa.py:858-867 | whatever is served is an entry of the directory |
| NasaImages.NotFoundExactly | backend/nasa.py:852-869 | 404 exactly when the directory is missing, or when no candidate is a file and no entry has the prefix |
| ImageGen.SpacesToUnderscores | backend/imageGen.py:37 | same length, no space left |
| ImageGen.SanitizeName | backend/imageGen.py:32-41 | never empty, and only characters of [A-Za-z0-9._-] |
| ImageGen.SanitizeKeepsSafeCharacters | backend/imageGen.py:35-41 | the result is a filtered, order-preserving copy of the stripped, underscored name, or "image" when nothing safe remains |
| ImageGen.SanitizeSafe | backend/imageGen.py:35-41 | a safe name is its own sanitised form |
| ImageGen.SanitizeIdempotent | backend/imageGen.py:32-41 | sanitising twice equals sanitising once |
| ImageGen.InnerSpaceBecomesUnderscore | backend/imageGen.py:35-39 | "a b" of safe words becomes "a_b" |
| ImageGen.Classify | backend/imageGen.py:18-29 | the branches in order: plain text is an error, JSON is parsed or reported invalid, an image type or status 200 is raw bytes, anything else is an error |
| ImageGen.PlainTextIsError | backend/imageGen.py:19-21 | a content type containing "text/plain" is an error even with status 200 |
| ImageGen.RawExactly | backend/imageGen.py:27-28 | raw bytes exactly when neither text nor JSON and the type says image or the status is 200 |
| ImageGen.InvalidJsonReported | backend/imageGen.py:22-26 | a JSON content type that does not parse is the "Invalid JSON from API" error |
| ImageGen.GenerateImage | backend/imageGen.py:44-137 | without a token the result is the token error; an image is written exactly when there is a token, the request got a response with status below 400 and the body classifies as raw image bytes, and then it holds those bytes and goes to the exoplanet directory under the sanitised name, else to the given path or the timestamped default |
| ImageGen.NoTokenBeforeRequest | backend/imageGen.py:66-68 | without a token the outcome of the request does not matter: nothing is sent |
| ImageGen.FailingStatusReported | backend/imageGen.py:78-85 | a status of 400 or more gives `ok` false with the status in the message |
| ImageGen.ServiceErrorKept | backend/imageGen.py:89-90 | an error dict is returned with every one of its fields and `ok` false |
| ImageGen.ExoplanetTarget | backend/imageGen.py:97-101 | with a name, the target is exoplanets/<sanitised>.png under the working directory, and the file name has no separator |
| Text.DecimalRoundTrip | HackNasa/Data/API/Model/GeneralDataset.swift:45 | parsing a number's decimal text gives the number back |
| Text.DecimalInjective | HackNasa/Data/API/Model/GeneralDataset.swift:45 | different numbers have different decimal texts |
| Text.StripIgnoresSurroundingSpace | backend/nasa.py:610 | whitespace around a text does not change its stripped form |
| Text.StripIdempotent | backend/imageGen.py:35 | stripping twice equals stripping once |
| Text.UpperStripCommute | backend/nasa.py:610-613 | upper-casing and stripping commute |
| Text.FilterIsSubsequence | backend/imageGen.py:39 | a filtered text is a subsequence of the original |
| Text.Join | backend/nasa.py:851 | an absolute name replaces the directory; otherwise the name is appended to it, with a separator only where needed |
| Json.DocumentRoundTrip | HackNasa/Features/Home/ViewModels/HomeViewModel.swift:59-60 | a serialised value parses back to itself |
| SwiftJson.DecodeInt | HackNasa/Data/API/Model/GeneralDataset.swift:44 | an Int decodes exactly from an in-range integral number |
| SwiftJson.DecodeKeyIfPresent | HackNasa/Data/API/Model/GeneralDataset.swift:49-52 | an absent or null key is none; otherwise it decodes as the value does |
| SwiftJson.DecodeDictionary | HackNasa/Features/Charts/Models/ModelPrecision.swift:13-14 | a dictionary decodes exactly when it is an object whose values all decode; its keys are the object's keys, and each holds the decoded value a lookup of that key finds |
| Py.Trunc | backend/nasa.py:226 | `int()` of a float truncates toward zero |
| CrossChecks.ClientUploadRejected | HackNasa/Data/Repository/Repository.swift:67-71 | an upload request from the client carries no query and no `X-Filename` header, so the server refuses it |
| CrossChecks.CorrectedUploadAccepted | backend/nasa.py:484-486 | with the header named `X-Filename`, the server reads the client's file name |
| CrossChecks.ClientBodyUpdatesAll | HackNasa/Data/Repository/Repository.swift:124-128 | the client's hyper-parameter body updates all three settings with its values |
| CrossChecks.ServerEntryOnClient | backend/nasa.py:235-248 | a server entry decodes on the client exactly when its id fits in an Int, the KOI name and disposition are present and the seven measurements are numbers; then the client keeps the server's name and the id's decimal text |
| CrossChecks.DecodedPrecision | backend/nasa.py:561-566 | when the client decodes the server's body, its `perClass` is the server's `per_class` dictionary decoded entry by entry |
| CrossChecks.ClientReadsServerRow | HackNasa/Features/Charts/Models/ModelPrecision.swift:37-40 | a class entry of the report is the row the client finds under its key |
| CrossChecks.NumericStatsReadable | backend/nasa.py:545-557 | a class entry whose four statistics are numbers, with a support that fits an Int, reaches the client as readable statistics |

## Left out

- Network and file I/O are not modelled: URLSession, Flask routing, uploads streamed to disk, `send_from_directory`, PIL image writes and directory creation. A handler's outcome ends where the I/O would begin: the reply, the file name, or the image bytes and target path.
- Floating-point arithmetic is not modelled. Numbers are `int` or `real`, and Python's `float()`/`int()` of text and `str()` of non-text values are the parameter record `Py.Conversions`. pandas' NaN is `Null`, read as "nan" by `astype(str)`.
- Swift's `Double(String)` is the parameter `parse` of the data-loading screen, and the `Task.sleep` pause is the single transition `LoadingFinished`. `@AppStorage` persistence is left out: the stored values are plain fields.
- Case mapping is ASCII only. Unicode case folding and normalisation are not modelled.
- DataLoadingView.Sanitized: text is a sequence of code points, while Swift's `filter` and `for ch in text` visit Characters (grapheme clusters). A digit followed by a combining mark is one Character outside the allowed set, which Swift drops; the model keeps the digit and drops only the mark.
- JSON is modelled at the token level. Lexing of character text (escapes, number syntax) is left out; `HomeViewModel.LeadingZeroRejected` states the one lexical rule the embedded document breaks.
- Swift's `JSONDecoder` also accepts an integral float for an `Int`; the model accepts any in-range integral number. Dictionary key order (`jsonify`, Swift dictionaries) is not modelled: objects keep members in order, and a lookup answers the last duplicate.
- `secure_filename` is not modelled: the image lookup starts from the already secured name.
- The timestamp fallback at `backend/nasa.py:835` raises, because `time` is never imported. It is modelled as having no save name, not as a reply. An uncaught exception is the `NasaEntries.Uncaught` 500 reply.
- In `generate_image`, prompt building, the post-save timestamp rename and the save failure are left out. They are file-system effects; the model stops at `Save(target, content)`.
- Prompt building in GeneratePlanetImage and the Gemini endpoints are left out: they produce free text for an external model.
- Training and prediction (`train_model`, sklearn, pandas preprocessing) are left out. `model_info` and the processed frame are inputs.
- `config_lock` and concurrency are left out; each handler runs atomically.
- `HomeViewModel`'s `init` starts `fetchFiles` in a `Task`. The model calls `FetchFiles` explicitly; file ids (`UUID()`) are a parameter.
- `URLComponents.url` failing and URLRequest's case-insensitive header storage are not modelled: a request is always built, with header names kept as written.
- Percent-encoding of paths is not modelled. The explicit `addingPercentEncoding` of the image name is commented out, but the `URLComponents` path setter still percent-encodes a space or a non-ASCII character on the wire. The model's `Url.path` is the unencoded path, so `Repository.ImagePathRoundTrip` and the other path round trips are about that path, not the encoded one.
- Charts, histograms and all SwiftUI layout are not modelled.
- NasaRequests.HeaderGet: request headers are a list of name/value pairs, and the first match wins. Werkzeug's multi-header handling is not modelled further.

## Findings

| source | as written | input that shows it | evidently intended | confidence | as-written member | corrected member |
|---|---|---|---|---|---|---|
| HackNasa/Features/Home/ViewModels/HomeViewModel.swift:27-41 | the embedded document has no comma after either `kepid` value, and the second is written 09876543 with a leading zero, so `JSONDecoder` throws and `dataset` stays nil | the document literal itself: parsing stops at the "kepler_name" key after `"kepid": 1234567` | commas after both values and the number 9876543, so the dataset becomes the first record (Kepler-22 b) | high (not executed) | HomeViewModel.EmbeddedDocumentRejected | HomeViewModel.CorrectedDocumentLoads |
| HackNasa/Data/Repository/Repository.swift:70 | the client sends the file name in the header "X-File-Name", while the server reads "X-Filename" or a `filename` query argument (backend/nasa.py:484), and the client sends no query | `uploadCSV("kepler.csv")` built by `request()`: the server answers 400 "Missing filename" | the header named "X-Filename", which the server accepts | high (not executed) | CrossChecks.ClientUploadRejected | CrossChecks.CorrectedUploadAccepted |
