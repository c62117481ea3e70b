# Registry of released persons — a verified model

The application keeps a register of released persons, each identified by an
`infopen` code, together with one photograph per person and a list of
judicial notifications (SEEU records). Its web routes register, edit, delete,
list and export persons, serve their photographs, and create, edit, delete,
list and export judicial records. This project models the logic behind those
routes in Dafny and proves what they guarantee.

Modules, in dependency order:

- `Wrappers`: the `Option` type.
- `Ascii`: ASCII `upper`/`lower`, `strip`, and SQL `LIKE`/`ILIKE` with the
  `%` and `_` wildcards.
- `Records`: the three tables' rows, the form inputs, the library functions
  passed in (`Services`), and the `uppercase_text_fields` listener, both as a
  specification function and as the column-by-column method the flush runs.
- `Uploads`: `allowed_file` and the magic-byte sniffing of `get_image`.
- `Tables`: ids, lookups, the schema constraints a commit checks, and the
  photo table operations: delete-then-add, delete, serve.
- `Filters`: the person filter of `search`/`export_csv`, built step by step
  as the source builds its query. Also the judiciary filter of
  `seeu`/`export_seeu_csv`, and the newest-first order.
- `Paging`: pages of fifty.
- `Csv`: the `csv.writer` output (excel dialect) and an RFC 4180 reader,
  with a proved round trip.
- `Exports`: the seventeen- and seven-column rows of the two exports.
- `Registry`: the `Store` class holding the three tables. Its methods are
  the routes; its invariant `Valid()` is kept by every write.

The database is SQLite, the engine the application uses by default:

- foreign keys are not enforced;
- `LIKE` folds ASCII case only;
- a new row id is one more than the largest id;
- NULL sorts lowest.

A request works on pending copies of the tables. The commit checks the
constraints: unique `infopen` and non-null `nome_completo`. Then it either
installs the copies or leaves the old tables.

## Model

| member | source | states |
|---|---|---|
| Ascii.Upper | app.py:185-214 | `str.upper` on ASCII: same length, each letter mapped to its capital |
| Ascii.Lower | app.py:64 | `str.lower` and SQL `lower()` on ASCII: same length, each capital mapped to its letter |
| Ascii.UpperIsUpperCase | app.py:185-214 | the result of `upper` is upper case, and a string is upper case exactly when `upper` leaves it unchanged |
| Ascii.UpperIdempotent | app.py:185-214 | upper-casing twice is upper-casing once |
| Ascii.LowerOfUpper | app.py:340 | lower-casing after upper-casing is lower-casing, so `ilike` cannot tell the two apart |
| Ascii.LowerAppend | app.py:340 | lower-casing distributes over concatenation |
| Ascii.TrimStart | app.py:588-590 | drops exactly a whitespace prefix and leaves no leading whitespace |
| Ascii.TrimEnd | app.py:588-590 | drops exactly a whitespace suffix and leaves no trailing whitespace |
| Ascii.Strip | app.py:588-590 | `str.strip`: no longer than its input, neither starting nor ending in whitespace |
| Ascii.StripCutsBlanks | app.py:588-590 | `str.strip` returns a contiguous slice of its input with only whitespace cut on either side |
| Ascii.StripEmptyIffBlank | app.py:247 | `not s.strip()` holds exactly when the string is all whitespace |
| Ascii.Pattern | app.py:340 | `f'%{x}%'` is the filter between two `%` |
| Ascii.LikePercentMatchesAll | app.py:340 | the pattern `%` matches every string |
| Ascii.LikeLiteralThenPercent | app.py:340 | a wildcard-free literal followed by `%` matches exactly the strings it prefixes |
| Ascii.LikeLeadingPercent | app.py:340 | a leading `%` matches exactly when the rest matches some suffix |
| Ascii.LikeContains | app.py:340 | `%x%` with a wildcard-free `x` matches exactly the strings containing `x` |
| Ascii.Like | app.py:340 | SQL `LIKE` without escape: `%` matches any run of characters, `_` any one character, every other character itself |
| Ascii.ILike | app.py:340-352 | `ilike`: `LIKE` after ASCII lower-casing of both the column and the pattern |
| Ascii.ILikeContains | app.py:340-352 | `ilike('%x%')` with a wildcard-free `x` is case-insensitive substring containment |
| Ascii.ILikeIgnoresUpper | app.py:340-352 | for ASCII text, `ilike` gives the same answer on a column before and after the listener upper-cases it |
| Ascii.PercentFilterMatchesAll | app.py:340 | a user typing `%` as a filter is not escaped: the filter keeps every non-null value |
| Records.UppercaseTextFields | app.py:185-214 | every text column becomes its upper-case form, null stays null, id and timestamp untouched, every column ends upper case |
| Records.UpperColumn | app.py:186-187 | one guarded assignment: a truthy column becomes its upper case and an empty or null column stays as it is, which is the same as upper-casing it |
| Records.RunUppercaseListener | app.py:185-214 | the fourteen guarded assignments together give the normalisation function |
| Records.UppercaseIdempotent | app.py:182-183 | running the listener again (on the update after an insert) changes nothing |
| Records.UppercaseFixesNormalized | app.py:182-183 | the listener leaves an already normalised row exactly as it is |
| Records.ProfileExtensionality | app.py:75-88 | two rows that agree on every text column have the same profile |
| Uploads.LastDot | app.py:63 | `rsplit('.', 1)`: the position of the last dot, or none when there is no dot |
| Uploads.AllowedFileIff | app.py:62-64 | a file name is allowed exactly when it has a dot and the lower-cased text after its last dot is png, jpg, jpeg or gif |
| Uploads.AllowedFile | app.py:62-64 | `allowed_file`: the text after the last dot, lower-cased, is an allowed extension; no dot means not allowed |
| Uploads.AcceptedUpload | app.py:258-260 | an upload is stored only when a file is present, its name is not empty and the name is allowed; otherwise it is ignored without error |
| Uploads.ContentType | app.py:496-503 | `image/png` exactly for the PNG signature, `image/gif` exactly for GIF87a/GIF89a, `image/jpeg` for everything else, the JPEG signature and the empty payload included |
| Uploads.SignaturesDisjoint | app.py:496-501 | no payload carries two signatures, so the order of the tests decides nothing |
| Uploads.ContentTypeReadsEightBytes | app.py:496-503 | the type depends only on the first eight bytes |
| Tables.NextId | app.py:74 | a new id is one more than the largest id in the table, 1 in an empty table |
| Tables.FindUser | app.py:408 | `get_or_404`: the position of the row with the id, or none when there is no such row |
| Tables.FindNote | app.py:634 | `get_or_404` on the judiciary table |
| Tables.FindUserByInfopen | app.py:252 | `filter_by(infopen=...).first()`: the first person whose infopen is exactly the value |
| Tables.InfopenTaken | app.py:421-425 | the duplicate queries: some person holds exactly this infopen, other than the person being edited (without an excluded id, the query of `register` at app.py:251-252) |
| Tables.SchemaHolds | app.py:75-76 | the constraints a commit checks: infopens UNIQUE among the non-null ones, and `nome_completo` NOT NULL |
| Tables.RemoveUserKeepsInvariants | app.py:527-530 | removing a person keeps the constraints and distinct ids |
| Tables.FindImage | app.py:489 | `Images.query.filter_by(infopen=k).first()`: the first photo row with exactly that key |
| Tables.WithKeyAppend | app.py:272-284 | the rows of a key in a concatenation are those of each part |
| Tables.OthersAppend | app.py:272-284 | the rows of other keys in a concatenation are those of each part |
| Tables.SelectionsAppend | app.py:272-284 | both selections distribute over concatenation |
| Tables.WithKeyEmpty | app.py:272-284 | a table without the key selects nothing for it and keeps everything else |
| Tables.AtMostOneWithKey | app.py:272-284 | under the one-photo invariant a key selects at most one row |
| Tables.RemoveFirstImage | app.py:272-275 | the first row of the key goes, every other row stays in order, and under the invariant no row of the key is left |
| Tables.RemoveAtSelections | app.py:272-275 | deleting the first row of a key removes exactly that row from the key's rows |
| Tables.RemoveAtKeepsAtMostOne | app.py:524-526 | deleting a row keeps the one-photo invariant |
| Tables.ReplaceImage | app.py:272-284 | delete-then-add leaves rows of other keys as they were and exactly the new row under its key |
| Tables.ServeImage | app.py:488-509 | `get_image`: not found exactly when no row has the key; otherwise the decoded payload of a row with that key, labelled by its magic bytes |
| Tables.ServeTheOnlyRow | app.py:488-509 | under the invariant the served photo is the single row of the key |
| Tables.ServeAfterReplace | app.py:260-284 | after an upload, `get_image` returns exactly the uploaded bytes |
| Tables.ServeAfterRemove | app.py:522-526 | after a delete, `get_image` for that infopen is not found |
| Tables.HasPhotoIffServed | app.py:383-386 | the listing's photo flag is set exactly when the person's photo URL serves an image |
| Tables.HasPhoto | app.py:383-386 | `bool(image_exists)`: the person's infopen is truthy and some photo row has exactly that infopen |
| Tables.FindImageAppend | app.py:460-472 | rows added at the end do not change which row `first()` finds for a key that already has one |
| Filters.Refine | app.py:338-352 | one `query.filter(...)` keeps exactly the rows that passed before and satisfy the new condition |
| Filters.FilterColumn | app.py:338-340 | one `if value: query = query.filter(column.ilike(...))` step |
| Filters.TextFilters | app.py:338-352 | the six text filters keep exactly the persons whose six columns pass their filters |
| Filters.BuildPersonQuery | app.py:336-376 | the built query keeps exactly the persons the filter predicate accepts; a date, year or month warning is raised exactly when that input is given and does not parse |
| Filters.NoFiltersKeepEveryone | app.py:336-376 | a form with no filters keeps every person |
| Filters.TextFilterIsSubstring | app.py:338-352 | a wildcard-free text filter holds exactly when the column is present and contains it case-insensitively |
| Filters.NormalizationPreservesPersonMatch | app.py:185-214 | for ASCII text, the filter gives the same answer on a person before and after the listener |
| Filters.UpperKeepsTextFilter | app.py:338-352 | for ASCII text, a text filter gives the same answer on a column before and after upper-casing |
| Filters.MonthOutOfRangeMatchesNothing | app.py:371-374 | a month outside 1..12 is applied unchecked and keeps nobody |
| Filters.MatchingUsers | app.py:336-377 | the persons of the table that pass the filter, in table order |
| Filters.PersonMatches | app.py:336-376 | the person filter: every truthy text filter `ilike`-matches its non-null column, and every parsable date, year and month equals that part of `data_modificacao` |
| Filters.SelectUsers | app.py:377 | `query.all()` over the built criteria keeps exactly the rows that satisfy them |
| Filters.SelectIsMatching | app.py:336-377 | running the built query gives exactly the filtered listing |
| Filters.NoFiltersSelectAll | app.py:390-393 | no filters lists the whole table |
| Filters.RefineNotes | app.py:596-608 | one judiciary `query.filter(...)` keeps exactly the rows that passed before and satisfy the new condition |
| Filters.FilterStripped | app.py:596-608 | the three conditional filters over the stripped inputs |
| Filters.BuildNoteQuery | app.py:588-608 | the built judiciary query keeps exactly the records the judiciary filter accepts |
| Filters.BlankNoteFiltersKeepAll | app.py:588-608 | blank or whitespace-only judiciary filters keep every record |
| Filters.MatchingNotes | app.py:588-611 | the records of the table that pass the judiciary filter |
| Filters.NoteMatches | app.py:588-608 | the judiciary filter over the stripped inputs: a non-empty name filter needs a person with exactly the record's infopen whose name matches, and non-empty infopen and SEEU-number filters must match their columns |
| Filters.HasMatchingOwner | app.py:596-600 | the join with the person table plus the name `ilike`: some person with exactly the record's infopen has a non-null name matching the pattern |
| Filters.SelectNotes | app.py:611 | running the judiciary criteria keeps exactly the records that satisfy them |
| Filters.SelectIsMatchingNotes | app.py:588-611 | running the built judiciary query gives exactly the filtered records |
| Filters.LexTotal | app.py:611 | any two timestamps are ordered |
| Filters.LexTransitive | app.py:611 | the timestamp order is transitive |
| Filters.StampTotal | app.py:611 | any two registration stamps, null included, are ordered |
| Filters.StampTransitive | app.py:611 | the stamp order is transitive |
| Filters.InsertNewestFirst | app.py:611 | inserting into a newest-first list gives a newest-first permutation with the record added |
| Filters.SortNewestFirst | app.py:611 | `order_by(data_registro.desc())`: a permutation of the input, newest first, null stamps last |
| Paging.Paginate | app.py:379 | page `p` holds at most fifty rows, row `k` of it being row `(p-1)*50+k` of the result, and it is empty when it starts past the end |
| Paging.PageCount | app.py:379 | the number of pages is the smallest count whose pages of fifty hold every row |
| Paging.PagesArePrefix | app.py:379 | the first `n` pages laid end to end are the first `50n` rows |
| Paging.PagesCoverItems | app.py:379 | walking every page lists every row exactly once, in order |
| Paging.PastTheEndIsEmpty | app.py:379 | a page after the last is empty, not an error |
| Paging.HundredTwentyRows | app.py:379 | 120 rows give pages of 50, 50 and 20, and page 4 is empty |
| Csv.ParseBare | app.py:765-797 | reading an unquoted field splits the text into the field and what follows it |
| Csv.ParseQuoted | app.py:765-797 | reading a quoted field consumes at least its closing quote |
| Csv.ParseField | app.py:765-797 | reading one field never grows the remaining text |
| Csv.ParseFields | app.py:765-797 | reading a record never grows the remaining text |
| Csv.BareRoundTrip | app.py:765-797 | a field without special characters is written verbatim and reads back |
| Csv.QuotedRoundTrip | app.py:765-797 | a field with its quotes doubled reads back |
| Csv.FieldRoundTrip | app.py:765-797 | every written field reads back |
| Csv.FieldsRoundTrip | app.py:765-797 | every written list of fields reads back |
| Csv.RowRoundTrip | app.py:765-797 | every written row reads back, the single empty field included |
| Csv.RowsRoundTrip | app.py:765-797 | every written table reads back |
| Csv.RenderRowsAppend | app.py:772-797 | one more `writerow` appends that row's text to the buffer |
| Csv.HeadedRows | app.py:765-797 | the header's text comes before the rows' text |
| Csv.DocumentRoundTrip | app.py:799 | the BOM-prefixed document reads back as exactly the rows written |
| Csv.RenderField | app.py:765-797 | a field is written verbatim unless it holds a comma, quote, CR or LF, in which case it is quoted with its quotes doubled |
| Csv.RenderRow | app.py:765-797 | `writerow`: the fields joined by commas and terminated by CRLF, a single empty field written as `""` |
| Csv.RenderRows | app.py:772-797 | the buffer after writing the rows in order |
| Csv.Document | app.py:799 | the byte-order mark followed by the buffer |
| Csv.DigitChar | app.py:774 | a decimal digit character has the digit's value |
| Csv.NatToDecimal | app.py:774 | `str(id)` is a non-empty string of digits |
| Csv.DecimalRoundTrip | app.py:774 | the id written reads back as the same number |
| Csv.DecimalNeedsNoQuoting | app.py:774 | an id is never quoted |
| Exports.JoinUser | app.py:709-711 | the outer join gives a person one line per photo row of its infopen, or one line without photo |
| Exports.OuterJoin | app.py:709-711 | the outer join of the persons with the photos: at least one row per person, and every row's person is in the table |
| Exports.JoinUserRows | app.py:709-711 | one person's part of the join holds exactly the rows the join condition lets through: the person with one of its photos, or with a null image when it has none |
| Exports.OuterJoinRows | app.py:709-711 | a row is in the join exactly when its person is in the table and the join condition lets it through; every person appears in some row |
| Exports.OneRowPerUser | app.py:709-711 | with at most one photo per infopen the export has exactly one line per matching person, carrying that person's photo |
| Exports.PersonRow | app.py:773-797 | a person line has the seventeen columns of the header |
| Exports.PersonRows | app.py:772-797 | one line per join result |
| Exports.PersonTableSnoc | app.py:772-797 | writing one more result adds its line at the end of the table |
| Exports.PersonRowDescribes | app.py:773-797 | a person line holds the id, each text column or `''` for null, the formatted stamp or `''`, and the photo or `''` |
| Exports.PersonCsv | app.py:795-799 | the document `export_csv` returns: the BOM, then the header and one line per join result |
| Exports.PersonCsvReadsBack | app.py:760-799 | the person export reads back as the header and one described line per result, in order |
| Exports.OwnerName | app.py:855-858 | the name (or `''` for null) of the first person with exactly the record's infopen, or `''` when there is none |
| Exports.FirstOwnerIsFound | app.py:855 | `filter_by(infopen=...).first()` returns the first person with exactly that infopen |
| Exports.NoteRow | app.py:857-865 | a judiciary line has the seven columns of its header |
| Exports.NoteRows | app.py:854-865 | one line per record |
| Exports.NoteTableSnoc | app.py:854-865 | writing one more record adds its line at the end of the table |
| Exports.NoteRowDescribes | app.py:855-865 | a judiciary line holds the infopen, the owner's name or `''`, the dates or `''`, and each text column or `''` for null |
| Exports.NoteCsv | app.py:868-872 | the document `export_seeu_csv` returns: the BOM, then the header and one line per record |
| Exports.StampCell | app.py:789-790 | `strftime('%d/%m/%Y %H:%M:%S')` of a timestamp, or `''` for null |
| Exports.DayCell | app.py:862 | `strftime('%d/%m/%Y')` of a date, or `''` for null |
| Exports.NoteCsvReadsBack | app.py:843-872 | the judiciary export reads back as the header and one described line per record, in order |
| Registry.EditedUser | app.py:430-443 | the edited person keeps its id and takes every form column upper-cased; its timestamp changes only when a column changed |
| Registry.EditedNote | app.py:654-666 | the edited record keeps its id and takes the form's infopen, parsed notification date, SEEU number, protocol and notes; its stamp changes only when a column changed |
| Registry.NewUser | app.py:287-306 | the inserted person: an id above every stored id, every form column upper-cased, the modification stamp of now |
| Registry.PhotoRow | app.py:262-284 | the photo row: the key, the base64 of the upload, the key again as `imagem_perfil`, the SHA-256 hex digest and the creation stamp of now |
| Registry.NoteFromForm | app.py:567-573 | the judiciary row from the form: the infopen, the parsed notification date, the SEEU number, protocol and notes, and the given stamp |
| Registry.EditPhotoAsWritten | app.py:460-472 | the photo write of `edit` as written: the first row of the submitted spelling is deleted and the new row is appended |
| Registry.EditPhotoAsWrittenKeepsOldPhoto | app.py:460-472 | as written, a lower-case infopen with a new photo leaves two photo rows and the old photo is still served |
| Registry.CaseVariantIsNeverSaved | app.py:252-255 | with stored rows upper-cased, an infopen that is not upper case but upper-cases to a stored one passes the exact duplicate check, and the commit then fails |
| Registry.RemoveFirstImageKeepsRows | app.py:272-275 | deleting a photo row adds no row |
| Registry.LowerCaseRegisterHidesPhoto | app.py:272-284 | a person registered with a lower-case infopen shows no photo in the listing, while the photo is served under the submitted spelling |
| Registry.ExportMatchesListing | app.py:696-799 | the person export reads back as the header and one line per person of the unpaginated listing for the same filter, each with its photo, after a leading BOM |
| Registry.Store.constructor | app.py:135 | the empty database satisfies the invariant |
| Registry.TablesValid | app.py:74-76 | the invariant every write keeps: the schema constraints, distinct primary keys in both tables, every profile as the listener leaves it, and at most one photo row per infopen |
| Registry.Store.Valid | app.py:74-76 | `TablesValid` of the store's three tables |
| Registry.InsertKeepsTablesValid | app.py:305-306 | a committed insert of the listener-normalised person with a fresh id keeps the primary keys distinct and every profile normalised |
| Registry.EditKeepsTablesValid | app.py:475 | a committed edit keeps the primary keys and leaves the edited profile normalised |
| Registry.DeleteKeepsTablesValid | app.py:524-530 | deleting a person and the first photo row of their infopen keeps every table invariant |
| Registry.Store.Register | app.py:228-316 | blank infopen, exact duplicate and failed commit each leave every table unchanged; otherwise the listener-normalised person is added and an accepted upload replaces the photo of the submitted infopen; the invariant is kept |
| Registry.Store.CommitRegister | app.py:258-316 | the photo write and insert of `register`: saved exactly when the schema holds for the extended table, the tables unchanged otherwise; the invariant is kept |
| Registry.Store.Edit | app.py:407-484 | unknown id, blank infopen and a duplicate held by another person are refused; a constraint failure is an error at the photo flush or a failed commit, with the tables unchanged; otherwise the person is replaced by the edited row and an accepted upload replaces the photo under the upper-cased infopen (the corrected photo write; the code as written is `Registry.EditPhotoAsWritten`); the invariant is kept |
| Registry.Store.CommitEdit | app.py:446-484 | the photo query, its autoflush and the commit of `edit`: an error at the flush or a failed commit exactly when the edited table breaks the schema, the tables unchanged then; otherwise the edited person and, with an accepted upload, the corrected photo write (`ReplaceImage` under the upper-cased infopen; the code as written is `Registry.EditPhotoAsWritten`); the invariant is kept |
| Registry.Store.InfopenTakenByOther | app.py:421-425 | the duplicate query of `edit`: another person has exactly this infopen |
| Registry.Store.Delete | app.py:519-536 | an unknown id changes nothing; otherwise the person and the first photo row of its infopen go, judiciary records and every other person stay |
| Registry.Store.Search | app.py:318-399 | the page of the filtered (POST) or complete (GET) listing, each person with its photo flag, and exactly the warnings of the malformed inputs |
| Registry.Store.FlagPhotos | app.py:382-386 | each listed person paired with `HasPhoto`, in page order |
| Registry.Store.ExportPersons | app.py:696-806 | the document is the person CSV of the outer join of the filtered persons with the photos |
| Registry.Store.WritePersonRows | app.py:763-797 | the buffer holds the header and one written line per result |
| Registry.Store.AddNote | app.py:547-584 | a filter-only POST, a falsy infopen and an unparsable date change nothing; otherwise the record is added with the next id and the stamp of now; persons and photos are untouched |
| Registry.Store.EditNote | app.py:633-676 | unknown id, falsy infopen and unparsable date change nothing; otherwise the record is replaced by the edited one |
| Registry.Store.DeleteNote | app.py:680-692 | an unknown id changes nothing; otherwise exactly that record goes |
| Registry.Store.ListNotes | app.py:588-611 | the filtered records newest first, holding exactly the records that pass the filter |
| Registry.Store.ExportNotes | app.py:810-879 | the document is the judiciary CSV of the same records in the same order |
| Registry.Store.WriteNoteRows | app.py:845-865 | the buffer holds the header and one written line per record |

## Left out

- Flask routing, templates, `flash` messages, redirects and response headers. `Outcome` stands for the message or abort a write ends with.
- The SQLAlchemy engine and session, the startup schema migration, and PostgreSQL. A commit is "new tables or old tables".
- Loading the enterprise and municipality reference data from JSON files (file I/O).
- base64, SHA-256, `strptime`, `int()`, `strftime` and the clock. They are parameters (`Services`, `now`). `Base64RoundTrips` is the one property assumed of them, as a hypothesis of the lemmas that need it.
- Unicode case mapping and whitespace beyond ASCII. SQLite's `LIKE` also folds ASCII only.
- Ascii.ILikeIgnoresUpper, Filters.UpperKeepsTextFilter, Filters.NormalizationPreservesPersonMatch: these hold for ASCII text only. Python's `str.upper` in the listener also upper-cases accented letters (`joão` is stored as `JOÃO`), while SQLite's `lower()` and `LIKE` fold ASCII only. So in the source a lower-case accented filter such as `joão` no longer finds the stored row, and normalisation does change search results for accented names. The model's `Upper` maps ASCII letters only and does not capture this.
- Column length limits (`String(100)` and the like). SQLite does not enforce them.
- Flask-SQLAlchemy's handling of a page below 1. `Paging.Paginate` requires `page >= 1`.
- `Registry.Store.Search`, `Registry.Store.ExportPersons`, `Exports.OuterJoin`: neither the POST search query nor the export's outer join has an `order_by`. The model lists persons in table order, and the join's rows person by person in that order, which is the order SQLite returns for a plain table scan; the source may return another order.
- `Filters.SortNewestFirst`: it is a stable sort, so records with identical stamps (to the microsecond) keep table order. SQLite does not specify an order for equal sort keys, and the source may list them differently.
- Registry.Store.ListNotes: records with identical stamps come out in table order, one choice among the orders SQLite may return; records whose stamps differ, even by a microsecond, come out newest first as in the source.
- Registry.Store.ExportNotes: uses the listing order, so the same holds for records with identical stamps.
- The judiciary name filter joins with the person table. The model states it as "some person with this infopen has a matching name", which is the join's result because infopens are unique.
- Foreign keys from photos and judiciary records to persons are not enforced by SQLite. Deleting a person leaves its judiciary records.
- The uniqueness of a case variant: an `infopen` equal to a stored one up to case is refused by the failing commit (`CommitFailed`), not by the duplicate message. The model follows the code (`Registry.CaseVariantIsNeverSaved`).
- Registry.Store.Edit, Registry.Store.CommitEdit: the photo write is the corrected one, `Tables.ReplaceImage` under the upper-cased infopen. As written, the code deletes the first photo row under the submitted spelling and adds the new row under the upper-cased one (`Registry.EditPhotoAsWritten`, see Findings). One consequence is not modelled: an edit submitted as `abc` deletes, as written, a photo that `register` stored under the raw key `abc`; `Store.Edit` keeps that row.
- The GET views that only render forms (`index`, `menu`, `map`, the GET branches of `register` and `edit`).

## Findings

| source | as written | input that shows it | evidently intended | confidence | as-written member | corrected member |
|---|---|---|---|---|---|---|
| app.py:460-472 | `edit` looks up the old photo with `user.infopen` before the query's autoflush upper-cases it, and then stores the new photo under the upper-cased value | a person stored as `ABC` with a photo; edit submitted with infopen `abc` and a new photo | the old photo is replaced, leaving one photo row for `ABC` that holds the new image | not executed | Registry.EditPhotoAsWritten, Registry.EditPhotoAsWrittenKeepsOldPhoto | Tables.ReplaceImage |
