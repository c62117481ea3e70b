/**
  * The rows of `export_csv` and `export_seeu_csv`: the person export's outer
  * join with the photo table, the fixed column lists, and the cell of each
  * column (a null becomes the empty string).
  */
module Exports {
  import opened Wrappers
  import opened Records
  import opened Tables
  import opened Csv

  /** The seventeen columns of the person export. */
  const PersonHeader: seq<string> := [
    "ID", "Infopen", "Nome Completo", "CPF", "Telefone", "Rua", "Bairro",
    "Número", "Município", "UEOP", "CIA", "Restrições Judiciais",
    "Observações", "Latitude", "Longitude", "Data de Modificação", "Imagem Base64"]

  /** The seven columns of the judiciary export. */
  const NoteHeader: seq<string> := [
    "Infopen", "Nome", "Data da Notificação", "Número do SEEU",
    "Protocolo", "Anotações", "Data do Registro"]

  /** The text columns written between the id and the timestamp, in header order. */
  const TextColumns: seq<FieldName> := [
    Infopen, NomeCompleto, Cpf, Telefone, Rua, Bairro, Numero,
    Municipio, Ueop, Cia, RestricoesJudiciais, Observacoes, Latitude, Longitude]

  /** `t.strftime('%d/%m/%Y %H:%M:%S') if t else ''`. */
  function StampCell(t: Option<DateTime>, svc: Services): string
  {
    if t.Some? then svc.formatStamp(t.value) else ""
  }

  /** `d.strftime('%d/%m/%Y') if d else ''`. */
  function DayCell(d: Option<Date>, svc: Services): string
  {
    if d.Some? then svc.formatDay(d.value) else ""
  }

  // ---------------------------------------------------------------- person export

  /** One result of `db.session.query(UserRegistration, Images.image_b64).outerjoin(...)`. */
  datatype JoinRow = JoinRow(user: User, imageB64: Option<string>)

  /** The photo rows the join condition `UserRegistration.infopen == Images.infopen` pairs with `u`. */
  function PhotosOf(u: User, images: seq<Image>): seq<Image>
  {
    if u.profile.infopen.Some? then WithKey(images, u.profile.infopen.value) else []
  }

  /**
    * The left outer join for one user: a row per matching photo, or a single
    * row with a null image when there is none (a null infopen matches nothing).
    */
  function JoinUser(u: User, images: seq<Image>): (r: seq<JoinRow>)
    ensures |r| >= 1 && forall k :: 0 <= k < |r| ==> r[k].user == u
    ensures PhotosOf(u, images) == [] ==> r == [JoinRow(u, None)]
    ensures PhotosOf(u, images) != [] ==>
      |r| == |PhotosOf(u, images)| &&
      forall k :: 0 <= k < |r| ==> r[k].imageB64 == Some(PhotosOf(u, images)[k].imageB64)
  {
    var photos := PhotosOf(u, images);
    if photos == [] then [JoinRow(u, None)]
    else seq(|photos|, k requires 0 <= k < |photos| => JoinRow(u, Some(photos[k].imageB64)))
  }

  /** The whole outer join, users in table order: every user is kept, with or without a photo. */
  function OuterJoin(users: seq<User>, images: seq<Image>): (r: seq<JoinRow>)
    ensures |r| >= |users|
    ensures forall k :: 0 <= k < |r| ==> r[k].user in users
  {
    if users == [] then [] else JoinUser(users[0], images) + OuterJoin(users[1..], images)
  }

  /**
    * What the join condition lets through for `u`: `u` with the base64 of one
    * of its photo rows, or `u` with a null image when it has none.
    */
  predicate Joins(row: JoinRow, u: User, images: seq<Image>)
  {
    && row.user == u
    && (PhotosOf(u, images) == [] ==> row.imageB64 == None)
    && (PhotosOf(u, images) != [] ==> exists p :: p in PhotosOf(u, images) && row.imageB64 == Some(p.imageB64))
  }

  /** The rows of one user's part of the join are exactly what the join condition lets through. */
  lemma JoinUserRows(u: User, images: seq<Image>)
    ensures forall row :: row in JoinUser(u, images) <==> Joins(row, u, images)
  {
    var r := JoinUser(u, images);
    var photos := PhotosOf(u, images);
    forall row | row in r
      ensures Joins(row, u, images)
    {
      var k :| 0 <= k < |r| && r[k] == row;
      if photos != [] {
        assert photos[k] in photos;
      }
    }
    forall row | Joins(row, u, images)
      ensures row in r
    {
      if photos == [] {
        assert r[0] == row;
      } else {
        var p :| p in photos && row.imageB64 == Some(p.imageB64);
        var k :| 0 <= k < |photos| && photos[k] == p;
        assert r[k] == row;
      }
    }
  }

  /**
    * `outerjoin(Images, UserRegistration.infopen == Images.infopen)`: a row is
    * in the result exactly when its person is in the table and the join
    * condition lets it through, so every person appears.
    */
  lemma {:induction false} OuterJoinRows(users: seq<User>, images: seq<Image>)
    ensures forall row :: row in OuterJoin(users, images) <==> row.user in users && Joins(row, row.user, images)
    ensures forall u :: u in users ==> exists row :: row in OuterJoin(users, images) && row.user == u
  {
    if users != [] {
      OuterJoinRows(users[1..], images);
      JoinUserRows(users[0], images);
      assert forall u :: u in users <==> u == users[0] || u in users[1..];
      forall u | u in users
        ensures exists row :: row in OuterJoin(users, images) && row.user == u
      {
        var row := if PhotosOf(u, images) == [] then JoinRow(u, None)
                   else JoinRow(u, Some(PhotosOf(u, images)[0].imageB64));
        assert PhotosOf(u, images) != [] ==> PhotosOf(u, images)[0] in PhotosOf(u, images);
        assert Joins(row, u, images);
      }
    }
  }

  /** The photo a user's export row carries: the base64 of its photo row, if any. */
  function PhotoOf(u: User, images: seq<Image>): Option<string>
  {
    var photos := PhotosOf(u, images);
    if photos == [] then None else Some(photos[0].imageB64)
  }

  /** With at most one photo per infopen the outer join has exactly one row per user. */
  lemma {:induction false} OneRowPerUser(users: seq<User>, images: seq<Image>)
    requires AtMostOneImagePerInfopen(images)
    ensures |OuterJoin(users, images)| == |users|
    ensures forall k :: 0 <= k < |users| ==>
      OuterJoin(users, images)[k] == JoinRow(users[k], PhotoOf(users[k], images))
  {
    if users != [] {
      OneRowPerUser(users[1..], images);
      var u := users[0];
      if u.profile.infopen.Some? {
        AtMostOneWithKey(images, u.profile.infopen.value);
      }
      assert JoinUser(u, images) == [JoinRow(u, PhotoOf(u, images))];
    }
  }

  /** The cells `writer.writerow` receives for one join result. */
  function PersonRow(r: JoinRow, svc: Services): (cells: seq<string>)
    ensures |cells| == |PersonHeader|
  {
    [NatToDecimal(r.user.id)]
    + seq(|TextColumns|, c requires 0 <= c < |TextColumns| => OrEmpty(Get(r.user.profile, TextColumns[c])))
    + [StampCell(r.user.dataModificacao, svc), OrEmpty(r.imageB64)]
  }

  function PersonRows(rows: seq<JoinRow>, svc: Services): (table: seq<seq<string>>)
    ensures |table| == |rows|
  {
    seq(|rows|, k requires 0 <= k < |rows| => PersonRow(rows[k], svc))
  }

  /** Writing the row of one more result extends the written table by that row. */
  lemma PersonTableSnoc(rows: seq<JoinRow>, k: nat, svc: Services)
    requires k < |rows|
    ensures [PersonHeader] + PersonRows(rows[..k + 1], svc)
      == ([PersonHeader] + PersonRows(rows[..k], svc)) + [PersonRow(rows[k], svc)]
  {
    assert PersonRows(rows[..k + 1], svc) == PersonRows(rows[..k], svc) + [PersonRow(rows[k], svc)];
  }

  /** The document `export_csv` returns for the join results `rows`. */
  function PersonCsv(rows: seq<JoinRow>, svc: Services): string
  {
    Document([PersonHeader] + PersonRows(rows, svc))
  }

  /**
    * What a reader sees in one person line: the id as a number, each text
    * column's value or the empty string for null, the formatted timestamp,
    * and the photo's base64 or the empty string.
    */
  predicate DescribesPerson(cells: seq<string>, r: JoinRow, svc: Services)
  {
    && |cells| == 17
    && (forall i :: 0 <= i < |cells[0]| ==> '0' <= cells[0][i] <= '9')
    && DecimalValue(cells[0]) == r.user.id
    && (forall c :: 0 <= c < 14 ==>
          var v := Get(r.user.profile, TextColumns[c]);
          (v.None? ==> cells[c + 1] == "") && (v.Some? ==> cells[c + 1] == v.value))
    && cells[15] == StampCell(r.user.dataModificacao, svc)
    && (r.imageB64.None? ==> cells[16] == "")
    && (r.imageB64.Some? ==> cells[16] == r.imageB64.value)
  }

  lemma PersonRowDescribes(r: JoinRow, svc: Services)
    ensures DescribesPerson(PersonRow(r, svc), r, svc)
  {
    DecimalRoundTrip(r.user.id);
  }

  /** Reading the person export back gives the header and one described line per join result, in order. */
  lemma PersonCsvReadsBack(rows: seq<JoinRow>, svc: Services)
    ensures var t := ReadDocument(PersonCsv(rows, svc));
      && t.Some? && |t.value| == |rows| + 1 && t.value[0] == PersonHeader
      && forall k :: 0 <= k < |rows| ==> DescribesPerson(t.value[k + 1], rows[k], svc)
  {
    var table := [PersonHeader] + PersonRows(rows, svc);
    assert forall k :: 0 <= k < |table| ==> |table[k]| >= 1;
    DocumentRoundTrip(table);
    forall k | 0 <= k < |rows| ensures DescribesPerson(table[k + 1], rows[k], svc) {
      assert table[k + 1] == PersonRow(rows[k], svc);
      PersonRowDescribes(rows[k], svc);
    }
  }

  // ---------------------------------------------------------------- judiciary export

  /** `user.nome_completo if user else ''` for the first user whose infopen equals the note's. */
  function OwnerName(n: Note, users: seq<User>): (name: string)
    ensures (forall i :: 0 <= i < |users| ==> users[i].profile.infopen != Some(n.infopen)) ==> name == ""
    ensures forall i :: 0 <= i < |users| && FirstWithInfopen(users, n.infopen, i) ==>
      name == OrEmpty(users[i].profile.nomeCompleto)
  {
    FirstOwnerIsFound(users, n.infopen);
    match FindUserByInfopen(users, n.infopen)
    case None => ""
    case Some(i) => OrEmpty(users[i].profile.nomeCompleto)
  }

  /** The cells `writer.writerow` receives for one judiciary record. */
  function NoteRow(n: Note, users: seq<User>, svc: Services): (cells: seq<string>)
    ensures |cells| == |NoteHeader|
  {
    [n.infopen, OwnerName(n, users), DayCell(n.dataNotificacao, svc),
     OrEmpty(n.numeroSeeu), OrEmpty(n.protocolo), OrEmpty(n.anotacoes), StampCell(n.dataRegistro, svc)]
  }

  function NoteRows(notes: seq<Note>, users: seq<User>, svc: Services): (table: seq<seq<string>>)
    ensures |table| == |notes|
  {
    seq(|notes|, k requires 0 <= k < |notes| => NoteRow(notes[k], users, svc))
  }

  lemma NoteTableSnoc(notes: seq<Note>, k: nat, users: seq<User>, svc: Services)
    requires k < |notes|
    ensures [NoteHeader] + NoteRows(notes[..k + 1], users, svc)
      == ([NoteHeader] + NoteRows(notes[..k], users, svc)) + [NoteRow(notes[k], users, svc)]
  {
    assert NoteRows(notes[..k + 1], users, svc) == NoteRows(notes[..k], users, svc) + [NoteRow(notes[k], users, svc)];
  }

  /** The document `export_seeu_csv` returns for the ordered records `notes`. */
  function NoteCsv(notes: seq<Note>, users: seq<User>, svc: Services): string
  {
    Document([NoteHeader] + NoteRows(notes, users, svc))
  }

  /** `users[i]` is the first user whose infopen is exactly `k`. */
  predicate FirstWithInfopen(users: seq<User>, k: string, i: int)
  {
    0 <= i < |users| && users[i].profile.infopen == Some(k)
    && forall j :: 0 <= j < i ==> users[j].profile.infopen != Some(k)
  }

  /**
    * What a reader sees in one judiciary line: the infopen, the owner's name
    * (empty when no user has that infopen, or the name is null), and each
    * optional column or the empty string.
    */
  predicate DescribesNote(cells: seq<string>, n: Note, users: seq<User>, svc: Services)
  {
    && |cells| == 7
    && cells[0] == n.infopen
    && ((forall i :: 0 <= i < |users| ==> users[i].profile.infopen != Some(n.infopen)) ==> cells[1] == "")
    && (forall i :: 0 <= i < |users| && FirstWithInfopen(users, n.infopen, i) ==> cells[1] == OrEmpty(users[i].profile.nomeCompleto))
    && cells[2] == DayCell(n.dataNotificacao, svc)
    && (n.numeroSeeu.None? ==> cells[3] == "") && (n.numeroSeeu.Some? ==> cells[3] == n.numeroSeeu.value)
    && (n.protocolo.None? ==> cells[4] == "") && (n.protocolo.Some? ==> cells[4] == n.protocolo.value)
    && (n.anotacoes.None? ==> cells[5] == "") && (n.anotacoes.Some? ==> cells[5] == n.anotacoes.value)
    && cells[6] == StampCell(n.dataRegistro, svc)
  }

  /** The first user with an infopen is the one `filter_by(infopen=...).first()` returns. */
  lemma FirstOwnerIsFound(users: seq<User>, k: string)
    ensures forall i :: FirstWithInfopen(users, k, i) ==> FindUserByInfopen(users, k) == Some(i)
  {
    forall i | FirstWithInfopen(users, k, i)
      ensures FindUserByInfopen(users, k) == Some(i)
    {
      var found := FindUserByInfopen(users, k);
      assert found.Some?;
      assert !(found.value < i) && !(i < found.value);
    }
  }

  lemma NoteRowDescribes(n: Note, users: seq<User>, svc: Services)
    ensures DescribesNote(NoteRow(n, users, svc), n, users, svc)
  {
  }

  /** Reading the judiciary export back gives the header and one described line per record, in order. */
  lemma NoteCsvReadsBack(notes: seq<Note>, users: seq<User>, svc: Services)
    ensures var t := ReadDocument(NoteCsv(notes, users, svc));
      && t.Some? && |t.value| == |notes| + 1 && t.value[0] == NoteHeader
      && forall k :: 0 <= k < |notes| ==> DescribesNote(t.value[k + 1], notes[k], users, svc)
  {
    var table := [NoteHeader] + NoteRows(notes, users, svc);
    assert forall k :: 0 <= k < |table| ==> |table[k]| >= 1;
    DocumentRoundTrip(table);
    forall k | 0 <= k < |notes| ensures DescribesNote(table[k + 1], notes[k], users, svc) {
      assert table[k + 1] == NoteRow(notes[k], users, svc);
      NoteRowDescribes(notes[k], users, svc);
    }
  }
}
