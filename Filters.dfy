/**
  * The filter logic shared by `search` and `export_csv` (person filter) and by
  * `seeu` and `export_seeu_csv` (judiciary filter), and the judiciary listing
  * order `order_by(Judiciary.data_registro.desc())`.
  *
  * Each builder mirrors the source's step-wise `query = query.filter(...)`:
  * it appends one criterion per applicable form field and is proved equal to
  * a declarative statement of which rows are kept.
  */
module Filters {
  import opened Wrappers
  import opened Ascii
  import opened Records

  // ---------------------------------------------------------------- person filter

  /** The filter fields posted to `search` and `export_csv`. */
  datatype PersonQuery = PersonQuery(
    infopen: Varchar,
    nomeCompleto: Varchar,
    cpf: Varchar,
    municipio: Varchar,
    ueop: Varchar,
    cia: Varchar,
    dataModificacao: Varchar,
    anoModificacao: Varchar,
    mesModificacao: Varchar)

  /** A GET of the listing: no filter field at all. */
  const NoFilters := PersonQuery(None, None, None, None, None, None, None, None, None)

  /** One `query.filter(...)` call. */
  datatype Criterion =
    | ColumnLike(column: FieldName, pattern: string)   // Column.ilike(pattern)
    | OnDate(date: Date)                               // func.date(data_modificacao) == date
    | InYear(year: int)                                // extract('year', data_modificacao) == year
    | InMonth(month: int)                              // extract('month', data_modificacao) == month

  /** The flashed messages for an unparseable date, year or month. */
  datatype Warning = InvalidDate | InvalidYear | InvalidMonth

  /** A SQL comparison with a NULL column is never true. */
  predicate Holds(c: Criterion, u: User)
  {
    match c
    case ColumnLike(col, pattern) =>
      Get(u.profile, col).Some? && ILike(Get(u.profile, col).value, pattern)
    case OnDate(d) => u.dataModificacao.Some? && u.dataModificacao.value.date == d
    case InYear(y) => u.dataModificacao.Some? && u.dataModificacao.value.date.year == y
    case InMonth(m) => u.dataModificacao.Some? && u.dataModificacao.value.date.month == m
  }

  /** Chained filters are a conjunction. */
  predicate SatisfiesAll(criteria: seq<Criterion>, u: User)
  {
    forall i :: 0 <= i < |criteria| ==> Holds(criteria[i], u)
  }

  /** A text filter constrains only when truthy; then the column must be non-null and match `%value%`. */
  predicate TextFilterHolds(filter: Varchar, column: Varchar)
  {
    !Truthy(filter) || (column.Some? && ILike(column.value, Pattern(filter.value)))
  }

  /** What a date input contributes: a constraint only when it is truthy and parses. */
  function ReadDate(raw: Varchar, svc: Services): Option<Date>
  {
    if Truthy(raw) then svc.parseDate(raw.value) else None
  }

  /** What a year or month input contributes: a constraint only when it is truthy and `int()` accepts it. */
  function ReadInt(raw: Varchar, svc: Services): Option<int>
  {
    if Truthy(raw) then svc.parseInt(raw.value) else None
  }

  /** A truthy input that does not parse is flashed and otherwise ignored. */
  predicate Malformed<T>(raw: Varchar, parsed: Option<T>)
  {
    Truthy(raw) && parsed.None?
  }

  /**
    * Which users the person filter keeps: every truthy text filter matches its
    * column, and every well-formed date, year and month equals the
    * corresponding part of `data_modificacao`.
    */
  predicate PersonMatches(q: PersonQuery, svc: Services, u: User)
  {
    var date, year, month := ReadDate(q.dataModificacao, svc), ReadInt(q.anoModificacao, svc), ReadInt(q.mesModificacao, svc);
    && TextPartMatches(q, u)
    && (date.Some? ==> Holds(OnDate(date.value), u))
    && (year.Some? ==> Holds(InYear(year.value), u))
    && (month.Some? ==> Holds(InMonth(month.value), u))
  }

  /** `query = query.filter(c)`: one more conjunct. */
  function Refine(criteria: seq<Criterion>, c: Criterion): (r: seq<Criterion>)
    ensures forall u :: SatisfiesAll(r, u) <==> SatisfiesAll(criteria, u) && Holds(c, u)
  {
    assert forall i :: 0 <= i < |criteria| ==> (criteria + [c])[i] == criteria[i];
    assert (criteria + [c])[|criteria|] == c;
    criteria + [c]
  }

  /**
    * The filter construction of `search` (and, identically, `export_csv`):
    * the criteria it builds keep exactly the users `PersonMatches` describes,
    * and it flashes one warning per malformed date, year or month.
    */
  method BuildPersonQuery(q: PersonQuery, svc: Services) returns (criteria: seq<Criterion>, warnings: seq<Warning>)
    ensures forall u :: SatisfiesAll(criteria, u) <==> PersonMatches(q, svc, u)
    ensures InvalidDate in warnings <==> Malformed(q.dataModificacao, ReadDate(q.dataModificacao, svc))
    ensures InvalidYear in warnings <==> Malformed(q.anoModificacao, ReadInt(q.anoModificacao, svc))
    ensures InvalidMonth in warnings <==> Malformed(q.mesModificacao, ReadInt(q.mesModificacao, svc))
  {
    criteria := TextFilters(q);

    warnings := [];
    if Truthy(q.dataModificacao) {
      var parsed := svc.parseDate(q.dataModificacao.value);
      if parsed.Some? {
        criteria := Refine(criteria, OnDate(parsed.value));
      } else {
        warnings := warnings + [InvalidDate];
      }
    }
    if Truthy(q.anoModificacao) {
      var parsed := svc.parseInt(q.anoModificacao.value);
      if parsed.Some? {
        criteria := Refine(criteria, InYear(parsed.value));
      } else {
        warnings := warnings + [InvalidYear];
      }
    }
    if Truthy(q.mesModificacao) {
      var parsed := svc.parseInt(q.mesModificacao.value);
      if parsed.Some? {
        criteria := Refine(criteria, InMonth(parsed.value));
      } else {
        warnings := warnings + [InvalidMonth];
      }
    }
  }

  /** The six `if request.form.get(...)` text steps, in the source's order. */
  method TextFilters(q: PersonQuery) returns (criteria: seq<Criterion>)
    ensures forall u :: SatisfiesAll(criteria, u) <==> TextPartMatches(q, u)
  {
    criteria := [];
    criteria := FilterColumn(criteria, q.infopen, Infopen);
    criteria := FilterColumn(criteria, q.nomeCompleto, NomeCompleto);
    criteria := FilterColumn(criteria, q.cpf, Cpf);
    criteria := FilterColumn(criteria, q.municipio, Municipio);
    criteria := FilterColumn(criteria, q.ueop, Ueop);
    criteria := FilterColumn(criteria, q.cia, Cia);
  }

  /** `if value: query = query.filter(column.ilike(f"%{value}%"))`. */
  method FilterColumn(criteria: seq<Criterion>, filter: Varchar, column: FieldName) returns (r: seq<Criterion>)
    ensures forall u :: SatisfiesAll(r, u) <==> SatisfiesAll(criteria, u) && TextFilterHolds(filter, Get(u.profile, column))
  {
    r := criteria;
    if Truthy(filter) {
      r := Refine(r, ColumnLike(column, Pattern(filter.value)));
    }
  }

  /** The six text filters of the person filter. */
  predicate TextPartMatches(q: PersonQuery, u: User)
  {
    && TextFilterHolds(q.infopen, Get(u.profile, Infopen))
    && TextFilterHolds(q.nomeCompleto, Get(u.profile, NomeCompleto))
    && TextFilterHolds(q.cpf, Get(u.profile, Cpf))
    && TextFilterHolds(q.municipio, Get(u.profile, Municipio))
    && TextFilterHolds(q.ueop, Get(u.profile, Ueop))
    && TextFilterHolds(q.cia, Get(u.profile, Cia))
  }

  /** With no filter field, every user is kept (the GET listing). */
  lemma NoFiltersKeepEveryone(svc: Services, u: User)
    ensures PersonMatches(NoFilters, svc, u)
  {
  }

  /**
    * For filter values without `%` or `_`, a text filter is a case-insensitive
    * substring test on a non-null column.
    */
  lemma TextFilterIsSubstring(filter: Varchar, column: Varchar)
    requires filter.Some? ==> NoWildcards(filter.value)
    ensures TextFilterHolds(filter, column) <==>
      !Truthy(filter) || (column.Some? && Contains(Lower(column.value), Lower(filter.value)))
  {
    if Truthy(filter) && column.Some? {
      ILikeContains(filter.value, column.value);
    }
  }

  /**
    * For ASCII text, write-time upper-casing never changes what the person
    * filter keeps: a filter typed in any case finds the stored upper-case
    * record. Accented letters are outside this model (see the README).
    */
  lemma NormalizationPreservesPersonMatch(q: PersonQuery, svc: Services, u: User)
    ensures PersonMatches(q, svc, UppercaseTextFields(u)) == PersonMatches(q, svc, u)
  {
    var r := UppercaseTextFields(u);
    UpperKeepsTextFilter(q.infopen, Get(u.profile, Infopen));
    UpperKeepsTextFilter(q.nomeCompleto, Get(u.profile, NomeCompleto));
    UpperKeepsTextFilter(q.cpf, Get(u.profile, Cpf));
    UpperKeepsTextFilter(q.municipio, Get(u.profile, Municipio));
    UpperKeepsTextFilter(q.ueop, Get(u.profile, Ueop));
    UpperKeepsTextFilter(q.cia, Get(u.profile, Cia));
    assert TextPartMatches(q, r) == TextPartMatches(q, u);
  }

  /** A text filter cannot tell a column from its upper-cased value. */
  lemma UpperKeepsTextFilter(filter: Varchar, column: Varchar)
    ensures TextFilterHolds(filter, UpperOpt(column)) == TextFilterHolds(filter, column)
  {
    if Truthy(filter) && column.Some? {
      ILikeIgnoresUpper(column.value, Pattern(filter.value));
    }
  }

  /** A month is not range-checked: `mes_modificacao = 13` is applied and no valid date matches it. */
  lemma MonthOutOfRangeMatchesNothing(q: PersonQuery, svc: Services, u: User)
    requires Truthy(q.mesModificacao) && svc.parseInt(q.mesModificacao.value).Some?
    requires !(1 <= svc.parseInt(q.mesModificacao.value).value <= 12)
    requires u.dataModificacao.Some? ==> 1 <= u.dataModificacao.value.date.month <= 12
    ensures !PersonMatches(q, svc, u)
  {
  }

  /** The users the person filter keeps, in table order. */
  function MatchingUsers(users: seq<User>, q: PersonQuery, svc: Services): (r: seq<User>)
    ensures |r| <= |users|
    ensures forall u :: u in r <==> u in users && PersonMatches(q, svc, u)
  {
    if users == [] then []
    else (if PersonMatches(q, svc, users[0]) then [users[0]] else []) + MatchingUsers(users[1..], q, svc)
  }

  /** `query.all()` over the users with the built criteria, in table order. */
  function SelectUsers(users: seq<User>, criteria: seq<Criterion>): (r: seq<User>)
    ensures |r| <= |users|
    ensures forall u :: u in r <==> u in users && SatisfiesAll(criteria, u)
  {
    if users == [] then []
    else (if SatisfiesAll(criteria, users[0]) then [users[0]] else []) + SelectUsers(users[1..], criteria)
  }

  /** Running the built criteria yields exactly the matching users, in the same order. */
  lemma {:induction false} SelectIsMatching(users: seq<User>, criteria: seq<Criterion>, q: PersonQuery, svc: Services)
    requires forall u :: SatisfiesAll(criteria, u) <==> PersonMatches(q, svc, u)
    ensures SelectUsers(users, criteria) == MatchingUsers(users, q, svc)
  {
    if users != [] {
      SelectIsMatching(users[1..], criteria, q, svc);
    }
  }

  /** Without filters the query keeps the whole table. */
  lemma {:induction false} NoFiltersSelectAll(users: seq<User>, svc: Services)
    ensures MatchingUsers(users, NoFilters, svc) == users
  {
    if users != [] {
      NoFiltersSelectAll(users[1..], svc);
      assert users == [users[0]] + users[1..];
    }
  }

  // ---------------------------------------------------------------- judiciary filter

  /** `request.values.get('filter_...', '')` for the three judiciary filters. */
  datatype NoteQuery = NoteQuery(filterInfopen: string, filterNome: string, filterNumeroSeeu: string)

  datatype NoteCriterion =
    | NameLike(pattern: string)       // join on infopen, UserRegistration.nome_completo.ilike(pattern)
    | InfopenLike(pattern: string)    // Judiciary.infopen.ilike(pattern)
    | SeeuLike(pattern: string)       // Judiciary.numero_seeu.ilike(pattern)

  /** Some user with exactly the note's infopen has a name matching `pattern`. */
  predicate HasMatchingOwner(n: Note, users: seq<User>, pattern: string)
  {
    exists i :: 0 <= i < |users| && users[i].profile.infopen == Some(n.infopen)
      && users[i].profile.nomeCompleto.Some? && ILike(users[i].profile.nomeCompleto.value, pattern)
  }

  predicate NoteHolds(c: NoteCriterion, n: Note, users: seq<User>)
  {
    match c
    case NameLike(pattern) => HasMatchingOwner(n, users, pattern)
    case InfopenLike(pattern) => ILike(n.infopen, pattern)
    case SeeuLike(pattern) => n.numeroSeeu.Some? && ILike(n.numeroSeeu.value, pattern)
  }

  predicate NoteSatisfiesAll(criteria: seq<NoteCriterion>, n: Note, users: seq<User>)
  {
    forall i :: 0 <= i < |criteria| ==> NoteHolds(criteria[i], n, users)
  }

  /**
    * Which notes the judiciary filter keeps: after stripping each filter, a
    * non-empty name filter needs an owner (a user with equal infopen) whose
    * name matches, and non-empty infopen and SEEU filters must match the
    * note's own columns.
    */
  predicate NoteMatches(q: NoteQuery, users: seq<User>, n: Note)
  {
    StrippedNoteMatches(Strip(q.filterNome), Strip(q.filterInfopen), Strip(q.filterNumeroSeeu), users, n)
  }

  /** `NoteMatches` once the three filters are stripped. */
  predicate StrippedNoteMatches(nome: string, infopen: string, seeu: string, users: seq<User>, n: Note)
  {
    && (nome != "" ==> HasMatchingOwner(n, users, Pattern(nome)))
    && (infopen != "" ==> ILike(n.infopen, Pattern(infopen)))
    && (seeu != "" ==> n.numeroSeeu.Some? && ILike(n.numeroSeeu.value, Pattern(seeu)))
  }

  /** `query = query.filter(c)` on the judiciary query. */
  function RefineNotes(criteria: seq<NoteCriterion>, c: NoteCriterion): (r: seq<NoteCriterion>)
    ensures forall n, users :: NoteSatisfiesAll(r, n, users) <==> NoteSatisfiesAll(criteria, n, users) && NoteHolds(c, n, users)
  {
    assert forall i :: 0 <= i < |criteria| ==> (criteria + [c])[i] == criteria[i];
    assert (criteria + [c])[|criteria|] == c;
    criteria + [c]
  }

  /** The filter construction of `seeu` and `export_seeu_csv`. */
  method BuildNoteQuery(q: NoteQuery) returns (criteria: seq<NoteCriterion>)
    ensures forall n, users :: NoteSatisfiesAll(criteria, n, users) <==> NoteMatches(q, users, n)
  {
    criteria := FilterStripped(Strip(q.filterNome), Strip(q.filterInfopen), Strip(q.filterNumeroSeeu));
  }

  /** The three `if filter_...:` steps, on the stripped filter values. */
  method FilterStripped(filterNome: string, filterInfopen: string, filterNumeroSeeu: string) returns (criteria: seq<NoteCriterion>)
    ensures forall n, users :: NoteSatisfiesAll(criteria, n, users) <==>
      StrippedNoteMatches(filterNome, filterInfopen, filterNumeroSeeu, users, n)
  {
    criteria := [];
    if filterNome != "" {
      criteria := RefineNotes(criteria, NameLike(Pattern(filterNome)));
    }
    assert forall n, users :: NoteSatisfiesAll(criteria, n, users) <==>
      StrippedNoteMatches(filterNome, "", "", users, n);
    if filterInfopen != "" {
      criteria := RefineNotes(criteria, InfopenLike(Pattern(filterInfopen)));
    }
    assert forall n, users :: NoteSatisfiesAll(criteria, n, users) <==>
      StrippedNoteMatches(filterNome, filterInfopen, "", users, n);
    if filterNumeroSeeu != "" {
      criteria := RefineNotes(criteria, SeeuLike(Pattern(filterNumeroSeeu)));
    }
  }

  /** Whitespace around a judiciary filter is irrelevant; a blank filter constrains nothing. */
  lemma BlankNoteFiltersKeepAll(q: NoteQuery, users: seq<User>, n: Note)
    requires IsBlank(q.filterInfopen) && IsBlank(q.filterNome) && IsBlank(q.filterNumeroSeeu)
    ensures NoteMatches(q, users, n)
  {
    StripEmptyIffBlank(q.filterInfopen);
    StripEmptyIffBlank(q.filterNome);
    StripEmptyIffBlank(q.filterNumeroSeeu);
  }

  /** The notes the judiciary filter keeps, in table order. */
  function MatchingNotes(notes: seq<Note>, users: seq<User>, q: NoteQuery): (r: seq<Note>)
    ensures |r| <= |notes|
    ensures forall n :: n in r <==> n in notes && NoteMatches(q, users, n)
    ensures multiset(r) <= multiset(notes)
  {
    if notes == [] then []
    else
      assert notes == [notes[0]] + notes[1..];
      (if NoteMatches(q, users, notes[0]) then [notes[0]] else []) + MatchingNotes(notes[1..], users, q)
  }

  /** `query.all()` over the notes with the built criteria, in table order. */
  function SelectNotes(notes: seq<Note>, users: seq<User>, criteria: seq<NoteCriterion>): (r: seq<Note>)
    ensures forall n :: n in r <==> n in notes && NoteSatisfiesAll(criteria, n, users)
  {
    if notes == [] then []
    else (if NoteSatisfiesAll(criteria, notes[0], users) then [notes[0]] else []) + SelectNotes(notes[1..], users, criteria)
  }

  lemma {:induction false} SelectIsMatchingNotes(notes: seq<Note>, users: seq<User>, criteria: seq<NoteCriterion>, q: NoteQuery)
    requires forall n :: NoteSatisfiesAll(criteria, n, users) <==> NoteMatches(q, users, n)
    ensures SelectNotes(notes, users, criteria) == MatchingNotes(notes, users, q)
  {
    if notes != [] {
      SelectIsMatchingNotes(notes[1..], users, criteria, q);
    }
  }

  // ---------------------------------------------------------------- judiciary order

  /** The components of a timestamp, most significant first. */
  function TimeKey(a: DateTime): seq<int>
  {
    [a.date.year, a.date.month, a.date.day, a.hour, a.minute, a.second, a.microsecond]
  }

  /** `a <= b` for the lexicographic order of date and time. */
  predicate DateTimeLeq(a: DateTime, b: DateTime)
  {
    LexLeq(TimeKey(a), TimeKey(b))
  }

  predicate LexLeq(x: seq<int>, y: seq<int>)
    requires |x| == |y|
  {
    x == [] || x[0] < y[0] || (x[0] == y[0] && LexLeq(x[1..], y[1..]))
  }

  lemma {:induction false} LexTotal(x: seq<int>, y: seq<int>)
    requires |x| == |y|
    ensures LexLeq(x, y) || LexLeq(y, x)
  {
    if x != [] && x[0] == y[0] {
      LexTotal(x[1..], y[1..]);
    }
  }

  lemma {:induction false} LexTransitive(x: seq<int>, y: seq<int>, z: seq<int>)
    requires |x| == |y| == |z| && LexLeq(x, y) && LexLeq(y, z)
    ensures LexLeq(x, z)
  {
    if x != [] && x[0] == y[0] && y[0] == z[0] {
      LexTransitive(x[1..], y[1..], z[1..]);
    }
  }

  /** The order of `data_registro`, with NULL (as in SQLite) below every timestamp. */
  predicate StampLeq(a: Option<DateTime>, b: Option<DateTime>)
  {
    a.None? || (b.Some? && DateTimeLeq(a.value, b.value))
  }

  lemma StampTotal(a: Option<DateTime>, b: Option<DateTime>)
    ensures StampLeq(a, b) || StampLeq(b, a)
  {
    if a.Some? && b.Some? {
      LexTotal(TimeKey(a.value), TimeKey(b.value));
    }
  }

  lemma StampTransitive(a: Option<DateTime>, b: Option<DateTime>, c: Option<DateTime>)
    requires StampLeq(a, b) && StampLeq(b, c)
    ensures StampLeq(a, c)
  {
    if a.Some? {
      LexTransitive(TimeKey(a.value), TimeKey(b.value), TimeKey(c.value));
    }
  }

  /** Newest registration first: `order_by(Judiciary.data_registro.desc())`. */
  predicate NewestFirst(s: seq<Note>)
  {
    forall i, j :: 0 <= i < j < |s| ==> StampLeq(s[j].dataRegistro, s[i].dataRegistro)
  }

  /** Inserts `n` into a newest-first list before the first note not newer than it. */
  function InsertNewestFirst(n: Note, s: seq<Note>): (r: seq<Note>)
    requires NewestFirst(s)
    ensures multiset(r) == multiset(s) + multiset{n}
    ensures NewestFirst(r)
  {
    if s == [] then [n]
    else if StampLeq(s[0].dataRegistro, n.dataRegistro) then
      assert forall j :: 0 <= j < |s| ==> StampLeq(s[j].dataRegistro, n.dataRegistro) by {
        forall j | 0 < j < |s| { StampTransitive(s[j].dataRegistro, s[0].dataRegistro, n.dataRegistro); }
      }
      ConsKeepsNewestFirst(n, s);
      [n] + s
    else
      StampTotal(s[0].dataRegistro, n.dataRegistro);
      var t := InsertNewestFirst(n, s[1..]);
      assert s == [s[0]] + s[1..];
      NotNewerThanHead(s, n, t);
      ConsKeepsNewestFirst(s[0], t);
      [s[0]] + t
  }

  /** A note no older than every note of a newest-first list may go in front of it. */
  lemma ConsKeepsNewestFirst(x: Note, t: seq<Note>)
    requires NewestFirst(t)
    requires forall j :: 0 <= j < |t| ==> StampLeq(t[j].dataRegistro, x.dataRegistro)
    ensures NewestFirst([x] + t)
  {
    var r := [x] + t;
    assert forall j :: 1 <= j < |r| ==> r[j] == t[j - 1];
  }

  /** The insertion into the tail holds only notes not newer than the head. */
  lemma NotNewerThanHead(s: seq<Note>, n: Note, t: seq<Note>)
    requires NewestFirst(s) && s != []
    requires StampLeq(n.dataRegistro, s[0].dataRegistro)
    requires multiset(t) == multiset(s[1..]) + multiset{n}
    ensures forall j :: 0 <= j < |t| ==> StampLeq(t[j].dataRegistro, s[0].dataRegistro)
  {
    forall j | 0 <= j < |t|
      ensures StampLeq(t[j].dataRegistro, s[0].dataRegistro)
    {
      assert t[j] in multiset(t);
      if t[j] != n {
        assert t[j] in s[1..];
        var k :| 0 <= k < |s[1..]| && s[1..][k] == t[j];
        assert s[k + 1] == t[j];
      }
    }
  }

  /** The judiciary listing order: a permutation of the notes, newest registration first. */
  function SortNewestFirst(s: seq<Note>): (r: seq<Note>)
    ensures multiset(r) == multiset(s)
    ensures NewestFirst(r)
  {
    if s == [] then []
    else
      assert s == [s[0]] + s[1..];
      InsertNewestFirst(s[0], SortNewestFirst(s[1..]))
  }
}
