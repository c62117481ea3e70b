/**
  * The queries the registry runs against its three tables, stated over
  * in-memory sequences in table (rowid) order: `get_or_404` by id,
  * `filter_by(infopen=...).first()`, the photo lookup, the delete-then-add
  * replacement of a photo, and the schema constraints checked at commit.
  */
module Tables {
  import opened Wrappers
  import opened Ascii
  import opened Records
  import opened Uploads

  // ---------------------------------------------------------------- ids

  /** The id SQLite gives a new row: one more than the largest id in the table (1 in an empty one). */
  function NextId(ids: seq<nat>): (r: nat)
    ensures ids == [] ==> r == 1
    ensures ids != [] ==> exists i :: 0 <= i < |ids| && r == ids[i] + 1
    ensures forall i :: 0 <= i < |ids| ==> ids[i] < r
  {
    if ids == [] then 1
    else
      var rest := NextId(ids[1..]);
      assert forall i :: 1 <= i < |ids| ==> ids[i] == ids[1..][i - 1];
      if ids[0] < rest then
        if ids[1..] == [] then rest
        else
          var j :| 0 <= j < |ids[1..]| && rest == ids[1..][j] + 1;
          assert rest == ids[j + 1] + 1;
          rest
      else ids[0] + 1
  }

  function UserIds(users: seq<User>): (ids: seq<nat>)
    ensures |ids| == |users| && forall i :: 0 <= i < |users| ==> ids[i] == users[i].id
  {
    seq(|users|, i requires 0 <= i < |users| => users[i].id)
  }

  /** `UserIds` on the judiciary table: the primary keys in table order. */
  function NoteIds(notes: seq<Note>): (ids: seq<nat>)
    ensures |ids| == |notes| && forall i :: 0 <= i < |notes| ==> ids[i] == notes[i].id
  {
    seq(|notes|, i requires 0 <= i < |notes| => notes[i].id)
  }

  /** The position of the row with primary key `id` (what `get_or_404` finds), if any. */
  function FindUser(users: seq<User>, id: nat): (r: Option<nat>)
    ensures r.None? <==> forall i :: 0 <= i < |users| ==> users[i].id != id
    ensures r.Some? ==> r.value < |users| && users[r.value].id == id
  {
    if users == [] then None
    else if users[|users| - 1].id == id then Some(|users| - 1)
    else FindUser(users[..|users| - 1], id)
  }

  /** The same primary-key lookup as `FindUser`, on the judiciary table (`Judiciary.query.get_or_404`). */
  function FindNote(notes: seq<Note>, id: nat): (r: Option<nat>)
    ensures r.None? <==> forall i :: 0 <= i < |notes| ==> notes[i].id != id
    ensures r.Some? ==> r.value < |notes| && notes[r.value].id == id
  {
    if notes == [] then None
    else if notes[|notes| - 1].id == id then Some(|notes| - 1)
    else FindNote(notes[..|notes| - 1], id)
  }

  // ---------------------------------------------------------------- users

  /** The UNIQUE constraint on `user_registration.infopen` (NULLs never clash). */
  predicate UniqueInfopens(users: seq<User>)
  {
    forall i, j :: 0 <= i < j < |users| && users[i].profile.infopen.Some? ==>
      users[i].profile.infopen != users[j].profile.infopen
  }

  /** The NOT NULL constraint on `user_registration.nome_completo`. */
  predicate NamesPresent(users: seq<User>)
  {
    forall i :: 0 <= i < |users| ==> users[i].profile.nomeCompleto.Some?
  }

  /** What a commit checks of the user table; a commit that breaks it fails and is rolled back. */
  predicate SchemaHolds(users: seq<User>)
  {
    UniqueInfopens(users) && NamesPresent(users)
  }

  predicate DistinctIds(ids: seq<nat>)
  {
    forall i, j :: 0 <= i < j < |ids| ==> ids[i] != ids[j]
  }

  /**
    * The duplicate check of register and edit: some user other than `exceptId`
    * has `infopen` exactly equal to the submitted value (no case folding).
    */
  predicate InfopenTaken(users: seq<User>, infopen: string, exceptId: Option<nat>)
  {
    exists i :: 0 <= i < |users| && users[i].profile.infopen == Some(infopen)
      && (exceptId.None? || users[i].id != exceptId.value)
  }

  /** `filter_by(infopen=k).first()` on users: the first user whose infopen is exactly `k`. */
  function FindUserByInfopen(users: seq<User>, k: string): (r: Option<nat>)
    ensures r.None? <==> forall i :: 0 <= i < |users| ==> users[i].profile.infopen != Some(k)
    ensures r.Some? ==> r.value < |users| && users[r.value].profile.infopen == Some(k)
    ensures r.Some? ==> forall j :: 0 <= j < r.value ==> users[j].profile.infopen != Some(k)
  {
    if users == [] then None
    else if users[0].profile.infopen == Some(k) then Some(0)
    else
      var r := FindUserByInfopen(users[1..], k);
      if r.None? then None else Some(r.value + 1)
  }

  /** Removing a row keeps a table's keys distinct. */
  lemma RemoveUserKeepsInvariants(users: seq<User>, i: nat)
    requires i < |users|
    requires SchemaHolds(users) && DistinctIds(UserIds(users))
    ensures SchemaHolds(users[..i] + users[i + 1..])
    ensures DistinctIds(UserIds(users[..i] + users[i + 1..]))
  {
    var r := users[..i] + users[i + 1..];
    assert forall a :: 0 <= a < |r| ==> r[a] == users[if a < i then a else a + 1];
  }

  // ---------------------------------------------------------------- images

  /** The invariant the photo logic keeps: no two image rows share an infopen. */
  predicate AtMostOneImagePerInfopen(images: seq<Image>)
  {
    forall i, j :: 0 <= i < j < |images| ==> images[i].infopen != images[j].infopen
  }

  /** `Images.query.filter_by(infopen=key).first()`: the first image row with exactly that infopen. */
  function FindImage(images: seq<Image>, key: string): (r: Option<nat>)
    ensures r.None? <==> forall i :: 0 <= i < |images| ==> images[i].infopen != key
    ensures r.Some? ==> r.value < |images| && images[r.value].infopen == key
    ensures r.Some? ==> forall j :: 0 <= j < r.value ==> images[j].infopen != key
  {
    if images == [] then None
    else if images[0].infopen == key then Some(0)
    else
      var r := FindImage(images[1..], key);
      if r.None? then None else Some(r.value + 1)
  }

  /** The image rows with infopen `key`, in table order. */
  function WithKey(images: seq<Image>, key: string): seq<Image>
  {
    if images == [] then []
    else (if images[0].infopen == key then [images[0]] else []) + WithKey(images[1..], key)
  }

  /** The image rows with any other infopen, in table order. */
  function Others(images: seq<Image>, key: string): seq<Image>
  {
    if images == [] then []
    else (if images[0].infopen != key then [images[0]] else []) + Others(images[1..], key)
  }

  lemma {:induction false} WithKeyAppend(a: seq<Image>, b: seq<Image>, key: string)
    ensures WithKey(a + b, key) == WithKey(a, key) + WithKey(b, key)
  {
    if a == [] {
      assert a + b == b;
    } else {
      assert (a + b)[1..] == a[1..] + b;
      WithKeyAppend(a[1..], b, key);
    }
  }

  lemma {:induction false} OthersAppend(a: seq<Image>, b: seq<Image>, key: string)
    ensures Others(a + b, key) == Others(a, key) + Others(b, key)
  {
    if a == [] {
      assert a + b == b;
    } else {
      assert (a + b)[1..] == a[1..] + b;
      OthersAppend(a[1..], b, key);
    }
  }

  /** Both selections distribute over concatenation. */
  lemma SelectionsAppend(a: seq<Image>, b: seq<Image>, key: string)
    ensures WithKey(a + b, key) == WithKey(a, key) + WithKey(b, key)
    ensures Others(a + b, key) == Others(a, key) + Others(b, key)
  {
    WithKeyAppend(a, b, key);
    OthersAppend(a, b, key);
  }

  lemma {:induction false} WithKeyEmpty(images: seq<Image>, key: string)
    requires forall i :: 0 <= i < |images| ==> images[i].infopen != key
    ensures WithKey(images, key) == []
    ensures Others(images, key) == images
  {
    if images != [] {
      WithKeyEmpty(images[1..], key);
    }
  }

  /** Under the invariant a key selects at most one row. */
  lemma {:induction false} AtMostOneWithKey(images: seq<Image>, key: string)
    requires AtMostOneImagePerInfopen(images)
    ensures |WithKey(images, key)| <= 1
  {
    if images != [] {
      if images[0].infopen == key {
        WithKeyEmpty(images[1..], key);
      } else {
        AtMostOneWithKey(images[1..], key);
      }
    }
  }

  /**
    * `existing_image = ...first(); if existing_image: db.session.delete(existing_image)`:
    * the first row for `key` goes, every other row stays in order.
    */
  function RemoveFirstImage(images: seq<Image>, key: string): (r: seq<Image>)
    ensures Others(r, key) == Others(images, key)
    ensures WithKey(r, key) == if WithKey(images, key) == [] then [] else WithKey(images, key)[1..]
    ensures AtMostOneImagePerInfopen(images) ==>
      AtMostOneImagePerInfopen(r) && forall i :: 0 <= i < |r| ==> r[i].infopen != key
  {
    match FindImage(images, key)
    case None =>
      WithKeyEmpty(images, key);
      images
    case Some(i) =>
      RemoveAtSelections(images, i, key);
      RemoveAtKeepsAtMostOne(images, i);
      images[..i] + images[i + 1..]
  }

  lemma RemoveAtSelections(images: seq<Image>, i: nat, key: string)
    requires i < |images| && images[i].infopen == key
    requires forall j :: 0 <= j < i ==> images[j].infopen != key
    ensures var r := images[..i] + images[i + 1..];
      Others(r, key) == Others(images, key) && WithKey(images, key) != []
      && WithKey(r, key) == WithKey(images, key)[1..]
  {
    var pre, post := images[..i], images[i + 1..];
    assert images == pre + [images[i]] + post;
    SelectionsAppend(pre + [images[i]], post, key);
    SelectionsAppend(pre, [images[i]], key);
    SelectionsAppend(pre, post, key);
    WithKeyEmpty(pre, key);
    assert [images[i]][1..] == [];
    assert WithKey([images[i]], key) == [images[i]];
    assert Others([images[i]], key) == [];
  }

  lemma RemoveAtKeepsAtMostOne(images: seq<Image>, i: nat)
    requires i < |images|
    ensures var r := images[..i] + images[i + 1..];
      AtMostOneImagePerInfopen(images) ==>
        AtMostOneImagePerInfopen(r) && forall a :: 0 <= a < |r| ==> r[a].infopen != images[i].infopen
  {
    var r := images[..i] + images[i + 1..];
    assert forall a :: 0 <= a < |r| ==> r[a] == images[if a < i then a else a + 1];
  }

  /** The photo write of register and edit: delete the row for the key, then add the new row. */
  function ReplaceImage(images: seq<Image>, row: Image): (r: seq<Image>)
    ensures Others(r, row.infopen) == Others(images, row.infopen)
    ensures AtMostOneImagePerInfopen(images) ==>
      AtMostOneImagePerInfopen(r) && WithKey(r, row.infopen) == [row]
  {
    var rest := RemoveFirstImage(images, row.infopen);
    SelectionsAppend(rest, [row], row.infopen);
    assert WithKey([row], row.infopen) == [row] && Others([row], row.infopen) == [] by {
      assert [row][1..] == [];
    }
    assert AtMostOneImagePerInfopen(images) ==> WithKey(rest, row.infopen) == [] by {
      if AtMostOneImagePerInfopen(images) {
        WithKeyEmpty(rest, row.infopen);
      }
    }
    rest + [row]
  }

  /** The `(user, bool(image_exists))` flag of the listing: the user has a truthy infopen with a photo row. */
  predicate HasPhoto(u: User, images: seq<Image>)
  {
    Truthy(u.profile.infopen) && FindImage(images, u.profile.infopen.value).Some?
  }

  // ---------------------------------------------------------------- serving

  datatype ImageResponse = NotFound | Served(data: seq<byte>, mimetype: string)

  /**
    * `get_image`: the first photo row with exactly this infopen, base64-decoded
    * and labelled by its magic bytes; not-found when there is no such row.
    */
  function ServeImage(images: seq<Image>, key: string, svc: Services): (r: ImageResponse)
    ensures r.NotFound? <==> forall i :: 0 <= i < |images| ==> images[i].infopen != key
    ensures r.Served? ==> r.mimetype == ContentType(r.data)
    ensures r.Served? ==>
      (exists i :: 0 <= i < |images| && images[i].infopen == key && r.data == svc.b64decode(images[i].imageB64))
  {
    match FindImage(images, key)
    case None => NotFound
    case Some(i) =>
      var data := svc.b64decode(images[i].imageB64);
      Served(data, ContentType(data))
  }

  /** Under the invariant the served photo is the one row `WithKey` selects. */
  lemma {:induction false} ServeTheOnlyRow(images: seq<Image>, key: string, svc: Services)
    requires AtMostOneImagePerInfopen(images)
    ensures WithKey(images, key) == [] ==> ServeImage(images, key, svc).NotFound?
    ensures WithKey(images, key) != [] ==>
      var data := svc.b64decode(WithKey(images, key)[0].imageB64);
      ServeImage(images, key, svc) == Served(data, ContentType(data))
  {
    if images != [] {
      if images[0].infopen == key {
        WithKeyEmpty(images[1..], key);
      } else {
        ServeTheOnlyRow(images[1..], key, svc);
        assert FindImage(images, key) == (if FindImage(images[1..], key).None? then None
          else Some(FindImage(images[1..], key).value + 1));
      }
    }
  }

  /** After a photo write, `get_image` returns exactly the uploaded bytes. */
  lemma ServeAfterReplace(images: seq<Image>, row: Image, bytes: seq<byte>, svc: Services)
    requires AtMostOneImagePerInfopen(images) && Base64RoundTrips(svc)
    requires row.imageB64 == svc.b64encode(bytes)
    ensures ServeImage(ReplaceImage(images, row), row.infopen, svc) == Served(bytes, ContentType(bytes))
  {
    ServeTheOnlyRow(ReplaceImage(images, row), row.infopen, svc);
  }

  /** After the photo of `key` is deleted, `get_image` for `key` is not found. */
  lemma ServeAfterRemove(images: seq<Image>, key: string, svc: Services)
    requires AtMostOneImagePerInfopen(images)
    ensures ServeImage(RemoveFirstImage(images, key), key, svc).NotFound?
  {
  }

  /** The listing's photo flag is set exactly when the photo URL of the user serves an image. */
  lemma HasPhotoIffServed(u: User, images: seq<Image>, svc: Services)
    ensures HasPhoto(u, images) <==> Truthy(u.profile.infopen) && ServeImage(images, u.profile.infopen.value, svc).Served?
  {
  }

  /** Rows added at the end never change which row `first()` finds for a key that already has one. */
  lemma {:induction false} FindImageAppend(images: seq<Image>, extra: seq<Image>, key: string)
    requires FindImage(images, key).Some?
    ensures FindImage(images + extra, key) == FindImage(images, key)
  {
    if images[0].infopen != key {
      FindImageAppend(images[1..], extra, key);
      assert (images + extra)[1..] == images[1..] + extra;
    }
  }
}
