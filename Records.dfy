/**
  * The three tables of the registry (`user_registration`, `images`,
  * `judiciary`), the form inputs that write them, and the write-time
  * normalisation listener `uppercase_text_fields`.
  */
module Records {
  import opened Wrappers
  import opened Ascii

  newtype byte = b: int | 0 <= b < 256

  /** A `datetime.date`; dates are compared, never computed with. */
  datatype Date = Date(year: int, month: int, day: int)

  /** A `datetime` in the Sao Paulo civil time zone, to the microsecond as `datetime.now` gives it. */
  datatype DateTime = DateTime(date: Date, hour: int, minute: int, second: int, microsecond: int)

  /** A nullable text column, or a form field that may be absent. */
  type Varchar = Option<string>

  /** Python truthiness of an optional string: present and not empty. */
  predicate Truthy(v: Varchar)
  {
    v.Some? && v.value != ""
  }

  /** `v or ''`: a null column rendered as the empty string. */
  function OrEmpty(v: Varchar): string
  {
    if v.Some? then v.value else ""
  }

  /** The fourteen text columns of `user_registration`, in table order. */
  datatype FieldName =
    | Infopen | NomeCompleto | Cpf | Telefone | Rua | Bairro | Numero
    | Municipio | Ueop | Cia | RestricoesJudiciais | Observacoes | Latitude | Longitude

  /** The text columns of a registered person; also the register and edit forms. */
  datatype Profile = Profile(
    infopen: Varchar,
    nomeCompleto: Varchar,
    cpf: Varchar,
    telefone: Varchar,
    rua: Varchar,
    bairro: Varchar,
    numero: Varchar,
    municipio: Varchar,
    ueop: Varchar,
    cia: Varchar,
    restricoesJudiciais: Varchar,
    observacoes: Varchar,
    latitude: Varchar,
    longitude: Varchar)

  function Get(p: Profile, f: FieldName): Varchar
  {
    match f
    case Infopen => p.infopen
    case NomeCompleto => p.nomeCompleto
    case Cpf => p.cpf
    case Telefone => p.telefone
    case Rua => p.rua
    case Bairro => p.bairro
    case Numero => p.numero
    case Municipio => p.municipio
    case Ueop => p.ueop
    case Cia => p.cia
    case RestricoesJudiciais => p.restricoesJudiciais
    case Observacoes => p.observacoes
    case Latitude => p.latitude
    case Longitude => p.longitude
  }

  /** A row of `user_registration`. */
  datatype User = User(id: nat, profile: Profile, dataModificacao: Option<DateTime>)

  /** A row of `images`: one stored photograph, addressed by `infopen`. */
  datatype Image = Image(
    infopen: string,
    imageB64: string,
    imagemPerfil: Varchar,
    imageHash: Varchar,
    createdAt: Option<DateTime>)

  /** A row of `judiciary`: a judicial notification about the person with `infopen`. */
  datatype Note = Note(
    id: nat,
    infopen: string,
    dataNotificacao: Option<Date>,
    numeroSeeu: Varchar,
    protocolo: Varchar,
    anotacoes: Varchar,
    dataRegistro: Option<DateTime>)

  /** An uploaded file: its client-side file name and its bytes. */
  datatype Upload = Upload(filename: string, content: seq<byte>)

  /** The fields of the judiciary create and edit forms. */
  datatype NoteForm = NoteForm(
    infopen: Varchar,
    dataNotificacao: Varchar,
    numeroSeeu: Varchar,
    protocolo: Varchar,
    anotacoes: Varchar)

  /**
    * Library code the registry calls but that is not modelled: base64 and
    * SHA-256 (hex digest), `strptime(s, '%Y-%m-%d')` and `int(s)` (None where
    * Python raises ValueError), and the two `strftime` formats.
    */
  datatype Services = Services(
    b64encode: seq<byte> -> string,
    b64decode: string -> seq<byte>,
    sha256Hex: seq<byte> -> string,
    parseDate: string -> Option<Date>,
    parseInt: string -> Option<int>,
    formatStamp: DateTime -> string,
    formatDay: Date -> string)

  /** The one property of base64 the registry relies on. */
  ghost predicate Base64RoundTrips(svc: Services)
  {
    forall bytes :: svc.b64decode(svc.b64encode(bytes)) == bytes
  }

  // ---------------------------------------------------------------- normalisation

  /** Upper-cases a present value; `None` stays `None`. */
  function UpperOpt(v: Varchar): Varchar
  {
    match v
    case None => None
    case Some(s) => Some(Upper(s))
  }

  /** One line of the listener: `if target.f: target.f = target.f.upper()`. */
  function UpperIfSet(v: Varchar): Varchar
  {
    if Truthy(v) then Some(Upper(v.value)) else v
  }

  predicate FieldIsUpper(v: Varchar)
  {
    v.Some? ==> IsUpperCase(v.value)
  }

  /**
    * `uppercase_text_fields`, run before every insert and update of a person:
    * each of the fourteen text columns becomes its upper-case form (an empty
    * or null column is left as it is, which is the same thing), and the id
    * and modification timestamp are untouched.
    */
  function UppercaseTextFields(u: User): (r: User)
    ensures r.id == u.id && r.dataModificacao == u.dataModificacao
    ensures forall f :: Get(r.profile, f) == UpperOpt(Get(u.profile, f))
    ensures forall f :: FieldIsUpper(Get(r.profile, f))
  {
    var p := u.profile;
    var q := Profile(
      UpperIfSet(p.infopen), UpperIfSet(p.nomeCompleto), UpperIfSet(p.cpf),
      UpperIfSet(p.telefone), UpperIfSet(p.rua), UpperIfSet(p.bairro),
      UpperIfSet(p.numero), UpperIfSet(p.municipio), UpperIfSet(p.ueop),
      UpperIfSet(p.cia), UpperIfSet(p.restricoesJudiciais), UpperIfSet(p.observacoes),
      UpperIfSet(p.latitude), UpperIfSet(p.longitude));
    forall f ensures Get(q, f) == UpperOpt(Get(p, f)) && FieldIsUpper(Get(q, f)) {
      var v := Get(p, f);
      if v.Some? {
        UpperIsUpperCase(v.value);
      }
    }
    u.(profile := q)
  }

  /**
    * One guarded assignment of the listener on a column of the target: the
    * column ends up upper case and otherwise unchanged.
    */
  method UpperColumn(v: Varchar) returns (w: Varchar)
    ensures w == UpperIfSet(v) == UpperOpt(v)
    ensures FieldIsUpper(w)
  {
    w := v;
    if Truthy(v) {
      w := Some(Upper(v.value));
      UpperIsUpperCase(v.value);
    } else if v.Some? {
      assert v.value == [];
    }
  }

  /**
    * The listener as the source runs it, one guarded assignment per column of
    * the target being flushed; the result is the normalisation above.
    */
  method RunUppercaseListener(target: User) returns (r: User)
    ensures r == UppercaseTextFields(target)
  {
    var p := target.profile;
    var infopen := UpperColumn(p.infopen);
    var nomeCompleto := UpperColumn(p.nomeCompleto);
    var cpf := UpperColumn(p.cpf);
    var telefone := UpperColumn(p.telefone);
    var rua := UpperColumn(p.rua);
    var bairro := UpperColumn(p.bairro);
    var numero := UpperColumn(p.numero);
    var municipio := UpperColumn(p.municipio);
    var ueop := UpperColumn(p.ueop);
    var cia := UpperColumn(p.cia);
    var restricoesJudiciais := UpperColumn(p.restricoesJudiciais);
    var observacoes := UpperColumn(p.observacoes);
    var latitude := UpperColumn(p.latitude);
    var longitude := UpperColumn(p.longitude);
    r := target.(profile := Profile(infopen, nomeCompleto, cpf, telefone, rua, bairro, numero,
      municipio, ueop, cia, restricoesJudiciais, observacoes, latitude, longitude));
  }

  /** A profile whose every text column is already upper case. */
  predicate IsNormalized(p: Profile)
  {
    forall f :: FieldIsUpper(Get(p, f))
  }

  /** Running the listener a second time (as the update after an insert does) changes nothing. */
  lemma UppercaseIdempotent(u: User)
    ensures UppercaseTextFields(UppercaseTextFields(u)) == UppercaseTextFields(u)
  {
    var once := UppercaseTextFields(u);
    var twice := UppercaseTextFields(once);
    forall f ensures Get(twice.profile, f) == Get(once.profile, f) {
      var v := Get(u.profile, f);
      if v.Some? {
        UpperIdempotent(v.value);
      }
    }
    ProfileExtensionality(twice.profile, once.profile);
  }

  /** The listener leaves a normalized profile exactly as it is. */
  lemma UppercaseFixesNormalized(u: User)
    requires IsNormalized(u.profile)
    ensures UppercaseTextFields(u) == u
  {
    var r := UppercaseTextFields(u);
    forall f ensures Get(r.profile, f) == Get(u.profile, f) {
      var v := Get(u.profile, f);
      if v.Some? {
        UpperIsUpperCase(v.value);
      }
    }
    ProfileExtensionality(r.profile, u.profile);
  }

  /** Two profiles that agree on every column are equal. */
  lemma ProfileExtensionality(p: Profile, q: Profile)
    requires forall f :: Get(p, f) == Get(q, f)
    ensures p == q
  {
    assert Get(p, Infopen) == Get(q, Infopen);
    assert Get(p, NomeCompleto) == Get(q, NomeCompleto);
    assert Get(p, Cpf) == Get(q, Cpf);
    assert Get(p, Telefone) == Get(q, Telefone);
    assert Get(p, Rua) == Get(q, Rua);
    assert Get(p, Bairro) == Get(q, Bairro);
    assert Get(p, Numero) == Get(q, Numero);
    assert Get(p, Municipio) == Get(q, Municipio);
    assert Get(p, Ueop) == Get(q, Ueop);
    assert Get(p, Cia) == Get(q, Cia);
    assert Get(p, RestricoesJudiciais) == Get(q, RestricoesJudiciais);
    assert Get(p, Observacoes) == Get(q, Observacoes);
    assert Get(p, Latitude) == Get(q, Latitude);
    assert Get(p, Longitude) == Get(q, Longitude);
  }
}
