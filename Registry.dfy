/**
  * The record store behind the routes `register`, `edit`, `delete`, `search`,
  * `export_csv`, `seeu`, `edit_seeu`, `delete_seeu` and `export_seeu_csv`.
  *
  * The database is three tables held by a `Store`. A request works on pending
  * copies of the tables, as the session does, and its commit either installs
  * them or, when a schema constraint fails, rolls back to the old tables. The
  * clock (`get_current_time_brasilia`) and the library functions are passed
  * in.
  */
module Registry {
  import opened Wrappers
  import opened Ascii
  import opened Records
  import opened Uploads
  import opened Tables
  import opened Filters
  import opened Paging
  import opened Csv
  import opened Exports

  /** How a write request ends (the flashed message, or an abort). */
  datatype Outcome =
    | Saved              // committed
    | UnknownId          // get_or_404
    | MissingInfopen     // "O campo Infopen é obrigatório"
    | DuplicateInfopen   // "Egresso já cadastrado!"
    | RejectedDate       // "Formato de data inválido"
    | CommitFailed       // commit raised, rolled back
    | ServerError        // an autoflush raised outside the try block
    | FilterOnly         // a POST to `seeu` without `protocolo` is the filter form

  /** `not infopen or not infopen.strip()`. */
  predicate BlankInfopen(v: Varchar)
  {
    v.None? || IsBlank(v.value)
  }

  /** The photo row `register` and `edit` add for `key`. */
  function PhotoRow(key: string, content: seq<byte>, now: DateTime, svc: Services): (r: Image)
    ensures r.infopen == key && r.imagemPerfil == Some(key) && r.createdAt == Some(now)
    ensures r.imageHash == Some(svc.sha256Hex(content)) && r.imageB64 == svc.b64encode(content)
  {
    Image(key, svc.b64encode(content), Some(key), Some(svc.sha256Hex(content)), Some(now))
  }

  /** The row `register` inserts: the next id, the stamp of now, then the listener. */
  function NewUser(users: seq<User>, form: Profile, now: DateTime): (r: User)
    ensures forall i :: 0 <= i < |users| ==> users[i].id < r.id
    ensures forall f :: Get(r.profile, f) == UpperOpt(Get(form, f))
    ensures IsNormalized(r.profile) && r.dataModificacao == Some(now)
  {
    UppercaseTextFields(User(NextId(UserIds(users)), form, Some(now)))
  }

  /**
    * The row `edit` leaves: every column from the form, upper-cased by the
    * listener, and `data_modificacao` refreshed only when a column really
    * changed (no UPDATE is issued otherwise, so `onupdate` does not fire).
    */
  function EditedUser(stored: User, form: Profile, now: DateTime): (r: User)
    ensures r.id == stored.id
    ensures forall f :: Get(r.profile, f) == UpperOpt(Get(form, f))
    ensures r.dataModificacao == if r.profile == stored.profile then stored.dataModificacao else Some(now)
  {
    var n := UppercaseTextFields(User(stored.id, form, stored.dataModificacao));
    if n.profile == stored.profile then n else n.(dataModificacao := Some(now))
  }

  /** Editing one person in place keeps the ids, and the edited profile is normalised. */
  lemma EditKeepsTableShape(users: seq<User>, i: nat, form: Profile, now: DateTime)
    requires i < |users|
    ensures UserIds(users[i := EditedUser(users[i], form, now)]) == UserIds(users)
    ensures IsNormalized(EditedUser(users[i], form, now).profile)
  {
    var edited := EditedUser(users[i], form, now);
    forall f
      ensures FieldIsUpper(Get(edited.profile, f))
    {
      if Get(form, f).Some? {
        UpperIsUpperCase(Get(form, f).value);
      }
    }
  }

  /**
    * What the database always satisfies: the schema constraints, distinct
    * primary keys, people as the listener leaves them, and at most one photo
    * row per key (every write replaces the old row).
    */
  ghost predicate TablesValid(users: seq<User>, images: seq<Image>, notes: seq<Note>)
  {
    && SchemaHolds(users)
    && DistinctIds(UserIds(users))
    && (forall i :: 0 <= i < |users| ==> IsNormalized(users[i].profile))
    && AtMostOneImagePerInfopen(images)
    && DistinctIds(NoteIds(notes))
  }

  /** A committed edit of person `i` with a well-formed photo table keeps the tables valid. */
  lemma EditKeepsTablesValid(users: seq<User>, images: seq<Image>, notes: seq<Note>, i: nat,
                             form: Profile, now: DateTime, newImages: seq<Image>)
    requires TablesValid(users, images, notes) && i < |users|
    requires SchemaHolds(users[i := EditedUser(users[i], form, now)])
    requires AtMostOneImagePerInfopen(newImages)
    ensures TablesValid(users[i := EditedUser(users[i], form, now)], newImages, notes)
  {
    EditKeepsTableShape(users, i, form, now);
  }

  /** Inserting the new person of `register` with a well-formed photo table keeps the tables valid. */
  lemma InsertKeepsTablesValid(users: seq<User>, images: seq<Image>, notes: seq<Note>,
                               form: Profile, now: DateTime, newImages: seq<Image>)
    requires TablesValid(users, images, notes)
    requires SchemaHolds(users + [NewUser(users, form, now)])
    requires AtMostOneImagePerInfopen(newImages)
    ensures TablesValid(users + [NewUser(users, form, now)], newImages, notes)
  {
    var added := NewUser(users, form, now);
    var r := users + [added];
    assert forall a :: 0 <= a < |users| ==> r[a] == users[a];
    assert forall a :: 0 <= a < |users| ==> UserIds(r)[a] < UserIds(r)[|users|];
  }

  /** Removing person `i` and the first photo row of their infopen keeps the tables valid. */
  lemma DeleteKeepsTablesValid(users: seq<User>, images: seq<Image>, notes: seq<Note>, i: nat)
    requires TablesValid(users, images, notes) && i < |users|
    ensures var key := users[i].profile.infopen;
      TablesValid(users[..i] + users[i + 1..], if key.Some? then RemoveFirstImage(images, key.value) else images, notes)
  {
    RemoveUserKeepsInvariants(users, i);
    var r := users[..i] + users[i + 1..];
    assert forall a :: 0 <= a < |r| ==> r[a] == users[if a < i then a else a + 1];
  }

  /** A judiciary row from the create or edit form (the date already known to parse). */
  function NoteFromForm(id: nat, form: NoteForm, stamp: Option<DateTime>, svc: Services): (r: Note)
    requires form.infopen.Some?
    ensures r.id == id && r.infopen == form.infopen.value && r.dataRegistro == stamp
    ensures r.dataNotificacao == ReadDate(form.dataNotificacao, svc)
    ensures r.numeroSeeu == form.numeroSeeu && r.protocolo == form.protocolo && r.anotacoes == form.anotacoes
  {
    Note(id, form.infopen.value, ReadDate(form.dataNotificacao, svc), form.numeroSeeu, form.protocolo, form.anotacoes, stamp)
  }

  /** The row `edit_seeu` leaves; `data_registro` is refreshed only when a column changed. */
  function EditedNote(stored: Note, form: NoteForm, now: DateTime, svc: Services): (r: Note)
    requires form.infopen.Some?
    ensures r.id == stored.id && r.infopen == form.infopen.value
    ensures r.dataNotificacao == ReadDate(form.dataNotificacao, svc)
    ensures r.numeroSeeu == form.numeroSeeu && r.protocolo == form.protocolo && r.anotacoes == form.anotacoes
    ensures r.dataRegistro == if r.(dataRegistro := stored.dataRegistro) == stored then stored.dataRegistro else Some(now)
  {
    var n := NoteFromForm(stored.id, form, stored.dataRegistro, svc);
    if n == stored then n else n.(dataRegistro := Some(now))
  }

  // ---------------------------------------------------------------- the edit photo key

  /**
    * The photo write of `edit` as written: the old row is looked up with the
    * submitted infopen (the argument is evaluated before the query's
    * autoflush runs the listener), while the new row takes `user.infopen`
    * after that flush, the upper-cased value.
    */
  function EditPhotoAsWritten(images: seq<Image>, submitted: string, row: Image): seq<Image>
  {
    RemoveFirstImage(images, submitted) + [row]
  }

  /**
    * As written, an edit that submits a stored infopen in lower case together
    * with a new photo keeps the old photo row: the person then has two photo
    * rows and `get_image` goes on serving the old one.
    */
  lemma EditPhotoAsWrittenKeepsOldPhoto(images: seq<Image>, submitted: string, content: seq<byte>, now: DateTime, svc: Services)
    requires AtMostOneImagePerInfopen(images)
    requires Upper(submitted) != submitted
    requires FindImage(images, Upper(submitted)).Some? && FindImage(images, submitted).None?
    ensures var after := EditPhotoAsWritten(images, submitted, PhotoRow(Upper(submitted), content, now, svc));
      !AtMostOneImagePerInfopen(after) && ServeImage(after, Upper(submitted), svc) == ServeImage(images, Upper(submitted), svc)
  {
    var key := Upper(submitted);
    var row := PhotoRow(key, content, now, svc);
    var after := EditPhotoAsWritten(images, submitted, row);
    assert RemoveFirstImage(images, submitted) == images;
    var i := FindImage(images, key).value;
    assert after[i].infopen == key && after[|images|] == row;
    FindImageAppend(images, [row], key);
  }

  // ---------------------------------------------------------------- consequences of the key handling

  /**
    * The duplicate check of `register` compares the submitted text exactly,
    * but the listener upper-cases the new row before the commit: an infopen
    * that differs from a stored one only in case passes the check and then
    * fails the unique constraint, so it is never saved.
    */
  lemma CaseVariantIsNeverSaved(users: seq<User>, form: Profile, now: DateTime, j: nat)
    requires forall i :: 0 <= i < |users| ==> IsNormalized(users[i].profile)
    requires form.infopen.Some? && Upper(form.infopen.value) != form.infopen.value
    requires j < |users| && users[j].profile.infopen == Some(Upper(form.infopen.value))
    ensures !InfopenTaken(users, form.infopen.value, None)
    ensures !SchemaHolds(users + [NewUser(users, form, now)])
  {
    forall i | 0 <= i < |users| && users[i].profile.infopen == form.infopen
      ensures false
    {
      assert FieldIsUpper(Get(users[i].profile, Infopen));
      UpperIsUpperCase(form.infopen.value);
    }
    var pending := users + [NewUser(users, form, now)];
    assert Get(pending[|users|].profile, Infopen) == UpperOpt(form.infopen);
    assert pending[j].profile.infopen == pending[|users|].profile.infopen;
  }

  /** Every row left by removing the first photo of a key was already there. */
  lemma RemoveFirstImageKeepsRows(images: seq<Image>, key: string)
    ensures forall x :: x in RemoveFirstImage(images, key) ==> x in images
  {
    match FindImage(images, key)
    case None =>
    case Some(i) =>
      assert RemoveFirstImage(images, key) == images[..i] + images[i + 1..];
  }

  /**
    * `register` keys the photo row by the infopen as submitted, while the
    * person row holds it upper-cased: a person registered with a lower-case
    * infopen shows no photo in the listing, although `get_image` serves the
    * upload under the submitted spelling.
    */
  lemma LowerCaseRegisterHidesPhoto(users: seq<User>, images: seq<Image>, form: Profile, content: seq<byte>, now: DateTime, svc: Services)
    requires AtMostOneImagePerInfopen(images)
    requires Truthy(form.infopen) && Upper(form.infopen.value) != form.infopen.value
    requires FindImage(images, Upper(form.infopen.value)).None?
    ensures var after := ReplaceImage(images, PhotoRow(form.infopen.value, content, now, svc));
      && !HasPhoto(NewUser(users, form, now), after)
      && ServeImage(after, form.infopen.value, svc).Served?
  {
    var raw := form.infopen.value;
    var row := PhotoRow(raw, content, now, svc);
    var after := ReplaceImage(images, row);
    var u := NewUser(users, form, now);
    assert Get(u.profile, Infopen) == UpperOpt(form.infopen);
    RemoveFirstImageKeepsRows(images, raw);
    assert after == RemoveFirstImage(images, raw) + [row];
    forall i | 0 <= i < |after| ensures after[i].infopen != Upper(raw) {
      assert after[i] in images || after[i] == row;
    }
    assert after[|after| - 1].infopen == raw;
  }

  /**
    * The export of a filter reads back, after the byte-order mark, as the
    * header and exactly one line per person of the unpaginated listing for
    * the same filter, in the same order, each with the person's photo.
    */
  lemma ExportMatchesListing(users: seq<User>, images: seq<Image>, query: PersonQuery, svc: Services)
    requires AtMostOneImagePerInfopen(images)
    ensures var listing := MatchingUsers(users, query, svc);
      var doc := PersonCsv(OuterJoin(listing, images), svc);
      var t := ReadDocument(doc);
      && doc[0] == Bom
      && t.Some? && |t.value| == |listing| + 1 && t.value[0] == PersonHeader
      && forall k :: 0 <= k < |listing| ==>
        DescribesPerson(t.value[k + 1], JoinRow(listing[k], PhotoOf(listing[k], images)), svc)
  {
    var listing := MatchingUsers(users, query, svc);
    var rows := OuterJoin(listing, images);
    OneRowPerUser(listing, images);
    PersonCsvReadsBack(rows, svc);
  }

  // ---------------------------------------------------------------- the store

  class Store {
    var users: seq<User>
    var images: seq<Image>
    var notes: seq<Note>

    /**
      * What every committed state satisfies: the schema constraints, distinct
      * ids, every stored person already upper-cased, and at most one photo
      * row per infopen.
      */
    ghost predicate Valid()
      reads this
    {
      TablesValid(users, images, notes)
    }

    /** An empty database, as `db.create_all()` leaves it. */
    constructor()
      ensures Valid()
      ensures users == [] && images == [] && notes == []
    {
      users, images, notes := [], [], [];
    }

    // ------------------------------------------------------------ persons

    /**
      * `register` (POST). A blank infopen, or one exactly equal to a stored
      * infopen, is refused. Otherwise an accepted upload replaces the photo
      * row of the submitted infopen, the new person is inserted, and the
      * commit either keeps both or, when a constraint fails, neither.
      */
    method Register(form: Profile, upload: Option<Upload>, now: DateTime, svc: Services) returns (outcome: Outcome)
      requires Valid()
      modifies this
      ensures Valid()
      ensures BlankInfopen(form.infopen) ==> outcome == MissingInfopen
      ensures !BlankInfopen(form.infopen) && InfopenTaken(old(users), form.infopen.value, None) ==>
        outcome == DuplicateInfopen
      ensures !BlankInfopen(form.infopen) && !InfopenTaken(old(users), form.infopen.value, None) ==>
        outcome == if SchemaHolds(old(users) + [NewUser(old(users), form, now)]) then Saved else CommitFailed
      ensures outcome == Saved ==>
        && users == old(users) + [NewUser(old(users), form, now)]
        && images == (if AcceptedUpload(upload)
                      then ReplaceImage(old(images), PhotoRow(form.infopen.value, upload.value.content, now, svc))
                      else old(images))
        && notes == old(notes)
      ensures outcome != Saved ==> users == old(users) && images == old(images) && notes == old(notes)
    {
      if form.infopen.None? || IsBlank(form.infopen.value) {
        return MissingInfopen;
      }
      var infopen := form.infopen.value;
      if FindUserByInfopen(users, infopen).Some? {
        return DuplicateInfopen;
      }
      outcome := CommitRegister(form, upload, now, svc);
    }

    /**
      * The write and commit of `register`: an accepted upload deletes the
      * photo row of the submitted infopen and adds the new one; the flush of
      * the commit runs the listener on the new person.
      */
    method CommitRegister(form: Profile, upload: Option<Upload>, now: DateTime, svc: Services) returns (outcome: Outcome)
      requires Valid() && form.infopen.Some?
      modifies this
      ensures Valid()
      ensures outcome == if SchemaHolds(old(users) + [NewUser(old(users), form, now)]) then Saved else CommitFailed
      ensures outcome == Saved ==>
        && users == old(users) + [NewUser(old(users), form, now)]
        && images == (if AcceptedUpload(upload)
                      then ReplaceImage(old(images), PhotoRow(form.infopen.value, upload.value.content, now, svc))
                      else old(images))
        && notes == old(notes)
      ensures outcome != Saved ==> users == old(users) && images == old(images) && notes == old(notes)
    {
      var pendingImages := images;
      if AcceptedUpload(upload) {
        var row := PhotoRow(form.infopen.value, upload.value.content, now, svc);
        pendingImages := ReplaceImage(pendingImages, row);
      }
      var added := RunUppercaseListener(User(NextId(UserIds(users)), form, Some(now)));
      var pendingUsers := users + [added];
      if !SchemaHolds(pendingUsers) {
        return CommitFailed;
      }
      InsertKeepsTablesValid(users, images, notes, form, now, pendingImages);
      users, images := pendingUsers, pendingImages;
      outcome := Saved;
    }

    /**
      * `edit` (POST). Unknown ids are not found; a blank infopen, or one
      * exactly equal to another person's, is refused. Otherwise the person
      * takes the form's columns. With an accepted upload the query for the
      * old photo first flushes the person; a constraint failure there is an
      * unhandled error. The commit keeps the edit, or rolls it back when a
      * constraint fails.
      */
    method Edit(id: nat, form: Profile, upload: Option<Upload>, now: DateTime, svc: Services) returns (outcome: Outcome)
      requires Valid()
      modifies this
      ensures Valid()
      ensures FindUser(old(users), id).None? ==> outcome == UnknownId
      ensures FindUser(old(users), id).Some? && BlankInfopen(form.infopen) ==> outcome == MissingInfopen
      ensures (FindUser(old(users), id).Some? && !BlankInfopen(form.infopen) &&
               InfopenTaken(old(users), form.infopen.value, Some(id))) ==> outcome == DuplicateInfopen
      ensures (FindUser(old(users), id).Some? && !BlankInfopen(form.infopen) &&
               !InfopenTaken(old(users), form.infopen.value, Some(id))) ==>
        var i := FindUser(old(users), id).value;
        outcome == if SchemaHolds(old(users)[i := EditedUser(old(users)[i], form, now)]) then Saved
                   else if AcceptedUpload(upload) then ServerError else CommitFailed
      ensures outcome == Saved ==>
        var i := FindUser(old(users), id).value;
        && users == old(users)[i := EditedUser(old(users)[i], form, now)]
        && images == (if AcceptedUpload(upload)
                      then ReplaceImage(old(images), PhotoRow(Upper(form.infopen.value), upload.value.content, now, svc))
                      else old(images))
        && notes == old(notes)
      ensures outcome != Saved ==> users == old(users) && images == old(images) && notes == old(notes)
    {
      var found := FindUser(users, id);
      if found.None? {
        return UnknownId;
      }
      var i := found.value;
      if form.infopen.None? || IsBlank(form.infopen.value) {
        return MissingInfopen;
      }
      var infopen := form.infopen.value;
      var taken := InfopenTakenByOther(infopen, id);
      if taken {
        return DuplicateInfopen;
      }
      outcome := CommitEdit(i, form, upload, now, svc);
    }

    /**
      * The write and commit of `edit` for person `i`: the photo query (with
      * its autoflush) when a photo was uploaded, then the commit.
      */
    method CommitEdit(i: nat, form: Profile, upload: Option<Upload>, now: DateTime, svc: Services) returns (outcome: Outcome)
      requires Valid() && i < |users| && form.infopen.Some?
      modifies this
      ensures Valid()
      ensures outcome == if SchemaHolds(old(users)[i := EditedUser(old(users)[i], form, now)]) then Saved
                         else if AcceptedUpload(upload) then ServerError else CommitFailed
      ensures outcome == Saved ==>
        && users == old(users)[i := EditedUser(old(users)[i], form, now)]
        && images == (if AcceptedUpload(upload)
                      then ReplaceImage(old(images), PhotoRow(Upper(form.infopen.value), upload.value.content, now, svc))
                      else old(images))
        && notes == old(notes)
      ensures outcome != Saved ==> users == old(users) && images == old(images) && notes == old(notes)
    {
      var edited := EditedUser(users[i], form, now);
      var pendingUsers := users[i := edited];
      var pendingImages := images;
      if AcceptedUpload(upload) {
        // the photo query autoflushes the edited person first
        if !SchemaHolds(pendingUsers) {
          return ServerError;
        }
        // the flushed person's infopen is the upper-cased form value
        var row := PhotoRow(Upper(form.infopen.value), upload.value.content, now, svc);
        pendingImages := ReplaceImage(pendingImages, row);
      }
      if !SchemaHolds(pendingUsers) {
        return CommitFailed;
      }
      EditKeepsTablesValid(users, images, notes, i, form, now, pendingImages);
      users, images := pendingUsers, pendingImages;
      outcome := Saved;
    }

    /** The duplicate query of `edit`: another person whose infopen is exactly `infopen`. */
    method InfopenTakenByOther(infopen: string, id: nat) returns (taken: bool)
      ensures taken == InfopenTaken(users, infopen, Some(id))
    {
      taken := false;
      var k := 0;
      while k < |users|
        invariant 0 <= k <= |users|
        invariant taken == exists j :: 0 <= j < k && users[j].profile.infopen == Some(infopen) && users[j].id != id
      {
        if users[k].profile.infopen == Some(infopen) && users[k].id != id {
          taken := true;
        }
        k := k + 1;
      }
    }

    /**
      * `delete`: removes the person and the first photo row of the person's
      * infopen; judiciary rows and every other person stay.
      */
    method Delete(id: nat) returns (outcome: Outcome)
      requires Valid()
      modifies this
      ensures Valid()
      ensures FindUser(old(users), id).None? ==>
        outcome == UnknownId && users == old(users) && images == old(images) && notes == old(notes)
      ensures FindUser(old(users), id).Some? ==>
        var i := FindUser(old(users), id).value;
        var infopen := old(users)[i].profile.infopen;
        && outcome == Saved
        && users == old(users)[..i] + old(users)[i + 1..]
        && images == (if infopen.Some? then RemoveFirstImage(old(images), infopen.value) else old(images))
        && notes == old(notes)
    {
      var found := FindUser(users, id);
      if found.None? {
        return UnknownId;
      }
      var i := found.value;
      var infopen := users[i].profile.infopen;
      if infopen.Some? {
        images := RemoveFirstImage(images, infopen.value);
      }
      DeleteKeepsTablesValid(users, old(images), notes, i);
      users := users[..i] + users[i + 1..];
      outcome := Saved;
    }

    /**
      * `search`: the person filter when `query` is present (POST), every
      * person otherwise (GET); then page `page` of fifty, each person with its
      * photo flag.
      */
    method Search(query: Option<PersonQuery>, page: nat, svc: Services) returns (listing: seq<(User, bool)>, warnings: seq<Warning>)
      requires page >= 1
      ensures var kept := if query.Some? then MatchingUsers(users, query.value, svc) else users;
        var items := Paginate(kept, page);
        |listing| == |items| && forall k :: 0 <= k < |items| ==> listing[k] == (items[k], HasPhoto(items[k], images))
      ensures query.None? ==> warnings == []
      ensures query.Some? ==>
        && (Filters.InvalidDate in warnings <==> Malformed(query.value.dataModificacao, ReadDate(query.value.dataModificacao, svc)))
        && (InvalidYear in warnings <==> Malformed(query.value.anoModificacao, ReadInt(query.value.anoModificacao, svc)))
        && (InvalidMonth in warnings <==> Malformed(query.value.mesModificacao, ReadInt(query.value.mesModificacao, svc)))
    {
      var kept := users;
      warnings := [];
      if query.Some? {
        var criteria;
        criteria, warnings := BuildPersonQuery(query.value, svc);
        kept := SelectUsers(users, criteria);
        SelectIsMatching(users, criteria, query.value, svc);
      }
      listing := FlagPhotos(Paginate(kept, page));
    }

    /** The page's rows, each with `user_has_image` for the template. */
    method FlagPhotos(items: seq<User>) returns (listing: seq<(User, bool)>)
      ensures |listing| == |items| && forall k :: 0 <= k < |items| ==> listing[k] == (items[k], HasPhoto(items[k], images))
    {
      listing := [];
      var k := 0;
      while k < |items|
        invariant 0 <= k <= |items|
        invariant |listing| == k
        invariant forall j :: 0 <= j < k ==> listing[j] == (items[j], HasPhoto(items[j], images))
      {
        var user := items[k];
        var imageExists := user.profile.infopen.Some? && user.profile.infopen.value != ""
          && FindImage(images, user.profile.infopen.value).Some?;
        listing := listing + [(user, imageExists)];
        k := k + 1;
      }
    }

    /**
      * `export_csv`: the person filter without pagination, outer-joined with
      * the photos, written as the seventeen-column document.
      */
    method ExportPersons(query: PersonQuery, svc: Services) returns (document: string, warnings: seq<Warning>)
      ensures document == PersonCsv(OuterJoin(MatchingUsers(users, query, svc), images), svc)
      ensures Filters.InvalidDate in warnings <==> Malformed(query.dataModificacao, ReadDate(query.dataModificacao, svc))
      ensures InvalidYear in warnings <==> Malformed(query.anoModificacao, ReadInt(query.anoModificacao, svc))
      ensures InvalidMonth in warnings <==> Malformed(query.mesModificacao, ReadInt(query.mesModificacao, svc))
    {
      var criteria;
      criteria, warnings := BuildPersonQuery(query, svc);
      SelectIsMatching(users, criteria, query, svc);
      var results := OuterJoin(SelectUsers(users, criteria), images);
      var output := WritePersonRows(results, svc);
      document := [Bom] + output;
    }

    /** The header and the `for user, image_b64 in results: writer.writerow(...)` loop of `export_csv`. */
    method WritePersonRows(results: seq<JoinRow>, svc: Services) returns (output: string)
      ensures output == RenderRows([PersonHeader] + PersonRows(results, svc))
    {
      output := RenderRow(PersonHeader);
      assert [PersonHeader] + PersonRows(results[..0], svc) == [PersonHeader];
      var k := 0;
      while k < |results|
        invariant 0 <= k <= |results|
        invariant output == RenderRows([PersonHeader] + PersonRows(results[..k], svc))
      {
        var cells := PersonRow(results[k], svc);
        RenderRowsAppend([PersonHeader] + PersonRows(results[..k], svc), cells);
        PersonTableSnoc(results, k, svc);
        output := output + RenderRow(cells);
        k := k + 1;
      }
      assert results[..k] == results;
    }

    // ------------------------------------------------------------ judiciary records

    /**
      * `seeu` (POST with `protocolo`): a falsy infopen or a date that does not
      * parse is refused; otherwise the record is added with the next id and
      * the stamp of now. Persons and photos are never touched.
      */
    method AddNote(form: NoteForm, now: DateTime, svc: Services) returns (outcome: Outcome)
      requires Valid()
      modifies this
      ensures Valid()
      ensures users == old(users) && images == old(images)
      ensures form.protocolo.None? ==> outcome == FilterOnly
      ensures form.protocolo.Some? && !Truthy(form.infopen) ==> outcome == MissingInfopen
      ensures form.protocolo.Some? && Truthy(form.infopen) ==>
        outcome == if Malformed(form.dataNotificacao, ReadDate(form.dataNotificacao, svc)) then RejectedDate else Saved
      ensures outcome == Saved ==>
        notes == old(notes) + [NoteFromForm(NextId(NoteIds(old(notes))), form, Some(now), svc)]
      ensures outcome != Saved ==> notes == old(notes)
    {
      if form.protocolo.None? {
        return FilterOnly;
      }
      if !Truthy(form.infopen) {
        return MissingInfopen;
      }
      if Truthy(form.dataNotificacao) && svc.parseDate(form.dataNotificacao.value).None? {
        return RejectedDate;
      }
      var record := NoteFromForm(NextId(NoteIds(notes)), form, Some(now), svc);
      assert forall i :: 0 <= i < |notes| ==> NoteIds(notes)[i] < record.id;
      notes := notes + [record];
      outcome := Saved;
    }

    /** `edit_seeu` (POST): the same checks as `AddNote`, then the record takes the form's columns. */
    method EditNote(id: nat, form: NoteForm, now: DateTime, svc: Services) returns (outcome: Outcome)
      requires Valid()
      modifies this
      ensures Valid()
      ensures users == old(users) && images == old(images)
      ensures FindNote(old(notes), id).None? ==> outcome == UnknownId
      ensures FindNote(old(notes), id).Some? && !Truthy(form.infopen) ==> outcome == MissingInfopen
      ensures FindNote(old(notes), id).Some? && Truthy(form.infopen) ==>
        outcome == if Malformed(form.dataNotificacao, ReadDate(form.dataNotificacao, svc)) then RejectedDate else Saved
      ensures outcome == Saved ==>
        var i := FindNote(old(notes), id).value;
        notes == old(notes)[i := EditedNote(old(notes)[i], form, now, svc)]
      ensures outcome != Saved ==> notes == old(notes)
    {
      var found := FindNote(notes, id);
      if found.None? {
        return UnknownId;
      }
      if !Truthy(form.infopen) {
        return MissingInfopen;
      }
      if Truthy(form.dataNotificacao) && svc.parseDate(form.dataNotificacao.value).None? {
        return RejectedDate;
      }
      var i := found.value;
      var edited := EditedNote(notes[i], form, now, svc);
      assert NoteIds(notes[i := edited]) == NoteIds(notes);
      notes := notes[i := edited];
      outcome := Saved;
    }

    /** `delete_seeu`: removes the record; nothing else changes. */
    method DeleteNote(id: nat) returns (outcome: Outcome)
      requires Valid()
      modifies this
      ensures Valid()
      ensures users == old(users) && images == old(images)
      ensures FindNote(old(notes), id).None? ==> outcome == UnknownId && notes == old(notes)
      ensures FindNote(old(notes), id).Some? ==>
        var i := FindNote(old(notes), id).value;
        outcome == Saved && notes == old(notes)[..i] + old(notes)[i + 1..]
    {
      var found := FindNote(notes, id);
      if found.None? {
        return UnknownId;
      }
      var i := found.value;
      var rest := notes[..i] + notes[i + 1..];
      assert forall a :: 0 <= a < |rest| ==> rest[a] == notes[if a < i then a else a + 1];
      notes := rest;
      outcome := Saved;
    }

    /**
      * The listing of `seeu`: the records the judiciary filter keeps, newest
      * registration first.
      */
    method ListNotes(query: NoteQuery) returns (records: seq<Note>)
      ensures records == SortNewestFirst(MatchingNotes(notes, users, query))
      ensures forall n :: n in records <==> n in notes && NoteMatches(query, users, n)
    {
      var criteria := BuildNoteQuery(query);
      SelectIsMatchingNotes(notes, users, criteria, query);
      records := SortNewestFirst(SelectNotes(notes, users, criteria));
      forall n ensures n in records <==> n in MatchingNotes(notes, users, query) {
        assert n in records <==> n in multiset(records);
      }
    }

    /** `export_seeu_csv`: the same records in the same order, written as the seven-column document. */
    method ExportNotes(query: NoteQuery, svc: Services) returns (document: string)
      ensures document == NoteCsv(SortNewestFirst(MatchingNotes(notes, users, query)), users, svc)
    {
      var records := ListNotes(query);
      var output := WriteNoteRows(records, users, svc);
      document := [Bom] + output;
    }

    /** The header and the `for record in judiciary_records:` loop of `export_seeu_csv`. */
    method WriteNoteRows(records: seq<Note>, owners: seq<User>, svc: Services) returns (output: string)
      ensures output == RenderRows([NoteHeader] + NoteRows(records, owners, svc))
    {
      output := RenderRow(NoteHeader);
      assert [NoteHeader] + NoteRows(records[..0], owners, svc) == [NoteHeader];
      var k := 0;
      while k < |records|
        invariant 0 <= k <= |records|
        invariant output == RenderRows([NoteHeader] + NoteRows(records[..k], owners, svc))
      {
        var cells := NoteRow(records[k], owners, svc);
        RenderRowsAppend([NoteHeader] + NoteRows(records[..k], owners, svc), cells);
        NoteTableSnoc(records, k, owners, svc);
        output := output + RenderRow(cells);
        k := k + 1;
      }
      assert records[..k] == records;
    }
  }
}
