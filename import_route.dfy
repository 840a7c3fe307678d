/**
  `POST /api/import` (src/app/api/import/route.ts): restores a backup by
  appending its records to the store one repository call at a time. The
  backup is checked for a truthy version and data field and for array-valued
  collections; then every member, song, event and setlist is added in that
  order. A failed add is logged and skipped, and the response reports the
  backup's own counts whatever was skipped.

  Whether the attempt-th save succeeds is the oracle `saveOk(attempt)`, with
  attempts numbered from 0 across the four collections in import order.
*/
module ImportRoute {
  import opened Types
  import opened Sequences
  import opened Collections
  import opened Storage
  import opened Backup
  import opened ExportRoute

  const InvalidFormat := "Invalid backup file format"
  const MissingFields := "Missing version or data field"
  const NotArrays := "Data fields must be arrays"

  datatype Response =
    | BadRequest(status: nat, error: string, details: string)
    | Imported(members: nat, songs: nat, events: nat, setlists: nat)

  /** The destructuring default: a missing field is the empty array. */
  function Items<T>(f: Field<T>): seq<T>
    requires !f.NotArray?
  {
    if f.Array? then f.items else []
  }

  /** The two validation steps and the collections a valid backup holds. */
  function Validate(b: Envelope): (r: Result<Document>)
    ensures r.Failure? && (!Truthy(b.version) || b.data.FalsyData?) ==> r.error == MissingFields
    ensures r.Failure? && Truthy(b.version) && b.data.TruthyData? ==> r.error == NotArrays
    ensures r.Success? <==>
      Truthy(b.version) && b.data.TruthyData? &&
      !b.data.members.NotArray? && !b.data.songs.NotArray? &&
      !b.data.events.NotArray? && !b.data.setlists.NotArray?
    ensures r.Success? ==>
      r.value == Document(Items(b.data.members), Items(b.data.songs), Items(b.data.events), Items(b.data.setlists))
  {
    if !Truthy(b.version) || b.data.FalsyData? then Failure(MissingFields)
    else if b.data.members.NotArray? || b.data.songs.NotArray? || b.data.events.NotArray? || b.data.setlists.NotArray? then
      Failure(NotArrays)
    else Success(Document(Items(b.data.members), Items(b.data.songs), Items(b.data.events), Items(b.data.setlists)))
  }

  /**
    The records of xs whose add succeeds, in order, when the first of them is
    attempt number offset.
  */
  function Survivors<T(==)>(xs: seq<T>, ok: nat -> bool, offset: nat): (r: seq<T>)
    ensures IsSubsequence(r, xs)
  {
    if xs == [] then []
    else
      var rest := Survivors(xs[1..], ok, offset + 1);
      if ok(offset) then
        assert ([xs[0]] + rest)[1..] == rest;
        [xs[0]] + rest
      else rest
  }

  /** The store after importing p into a store holding d. */
  function ImportedDocument(d: Document, p: Document, ok: nat -> bool): Document
  {
    var s := |p.members|;
    var e := s + |p.songs|;
    var l := e + |p.events|;
    Document(d.members + Survivors(p.members, ok, 0),
             d.songs + Survivors(p.songs, ok, s),
             d.events + Survivors(p.events, ok, e),
             d.setlists + Survivors(p.setlists, ok, l))
  }

  /** Adding one more record extends the survivors of a prefix by that record when its save succeeds. */
  lemma {:induction false} SurvivorsSnoc<T>(xs: seq<T>, ok: nat -> bool, offset: nat, i: nat)
    requires i < |xs|
    ensures Survivors(xs[..i + 1], ok, offset) ==
            Survivors(xs[..i], ok, offset) + (if ok(offset + i) then [xs[i]] else [])
    decreases i
  {
    if i == 0 {
      assert xs[..1][1..] == [];
      assert xs[..0] == [];
    } else {
      assert xs[..i + 1][1..] == xs[1..][..i];
      assert xs[..i][1..] == xs[1..][..i - 1];
      SurvivorsSnoc(xs[1..], ok, offset + 1, i - 1);
    }
  }

  /** Exactly the records whose save succeeds survive: all of them precisely when every save succeeds. */
  lemma {:induction false} SurvivorsComplete<T>(xs: seq<T>, ok: nat -> bool, offset: nat)
    ensures |Survivors(xs, ok, offset)| <= |xs|
    ensures Survivors(xs, ok, offset) == xs <==> forall k :: offset <= k < offset + |xs| ==> ok(k)
  {
    if xs != [] {
      SurvivorsComplete(xs[1..], ok, offset + 1);
      var rest := Survivors(xs[1..], ok, offset + 1);
      if ok(offset) {
        assert Survivors(xs, ok, offset) == [xs[0]] + rest;
        assert xs == [xs[0]] + xs[1..];
      } else {
        assert |Survivors(xs, ok, offset)| < |xs|;
      }
    }
  }

  /** No record survives when every save fails. */
  lemma {:induction false} SurvivorsNone<T>(xs: seq<T>, ok: nat -> bool, offset: nat)
    requires forall k :: offset <= k < offset + |xs| ==> !ok(k)
    ensures Survivors(xs, ok, offset) == []
  {
    if xs != [] {
      SurvivorsNone(xs[1..], ok, offset + 1);
    }
  }

  /** The member loop: each member is added with its own save outcome, the first being attempt `first`. */
  method ImportMembers(file: DataFile, xs: seq<Member>, saveOk: nat -> bool, first: nat)
    modifies file
    ensures var d := old(file.Load()); file.Load() == d.(members := d.members + Survivors(xs, saveOk, first))
  {
    ghost var d := file.Load();
    for i := 0 to |xs|
      invariant file.Load() == d.(members := d.members + Survivors(xs[..i], saveOk, first))
    {
      var _ := AddMember(file, xs[i], saveOk(first + i));
      SurvivorsSnoc(xs, saveOk, first, i);
    }
    assert xs[..|xs|] == xs;
  }

  method ImportSongs(file: DataFile, xs: seq<Song>, saveOk: nat -> bool, first: nat)
    modifies file
    ensures var d := old(file.Load()); file.Load() == d.(songs := d.songs + Survivors(xs, saveOk, first))
  {
    ghost var d := file.Load();
    for i := 0 to |xs|
      invariant file.Load() == d.(songs := d.songs + Survivors(xs[..i], saveOk, first))
    {
      var _ := AddSong(file, xs[i], saveOk(first + i));
      SurvivorsSnoc(xs, saveOk, first, i);
    }
    assert xs[..|xs|] == xs;
  }

  method ImportEvents(file: DataFile, xs: seq<Event>, saveOk: nat -> bool, first: nat)
    modifies file
    ensures var d := old(file.Load()); file.Load() == d.(events := d.events + Survivors(xs, saveOk, first))
  {
    ghost var d := file.Load();
    for i := 0 to |xs|
      invariant file.Load() == d.(events := d.events + Survivors(xs[..i], saveOk, first))
    {
      var _ := AddEvent(file, xs[i], saveOk(first + i));
      SurvivorsSnoc(xs, saveOk, first, i);
    }
    assert xs[..|xs|] == xs;
  }

  method ImportSetlists(file: DataFile, xs: seq<Setlist>, saveOk: nat -> bool, first: nat)
    modifies file
    ensures var d := old(file.Load()); file.Load() == d.(setlists := d.setlists + Survivors(xs, saveOk, first))
  {
    ghost var d := file.Load();
    for i := 0 to |xs|
      invariant file.Load() == d.(setlists := d.setlists + Survivors(xs[..i], saveOk, first))
    {
      var _ := AddSetlist(file, xs[i], saveOk(first + i));
      SurvivorsSnoc(xs, saveOk, first, i);
    }
    assert xs[..|xs|] == xs;
  }

  /**
    The handler: a rejected backup leaves the store alone; an accepted one is
    imported collection by collection, and the response carries the backup's
    own counts.
  */
  method Post(file: DataFile, backup: Envelope, saveOk: nat -> bool) returns (resp: Response)
    modifies file
    ensures Validate(backup).Failure? ==>
      resp == BadRequest(400, InvalidFormat, Validate(backup).error) && file.content == old(file.content)
    ensures Validate(backup).Success? ==>
      var p := Validate(backup).value;
      resp == Imported(|p.members|, |p.songs|, |p.events|, |p.setlists|) &&
      file.Load() == ImportedDocument(old(file.Load()), p, saveOk)
  {
    var v := Validate(backup);
    if v.Failure? {
      return BadRequest(400, InvalidFormat, v.error);
    }
    var p := v.value;
    var s := |p.members|;
    var e := s + |p.songs|;
    var l := e + |p.events|;
    ImportMembers(file, p.members, saveOk, 0);
    ImportSongs(file, p.songs, saveOk, s);
    ImportEvents(file, p.events, saveOk, e);
    ImportSetlists(file, p.setlists, saveOk, l);
    resp := Imported(|p.members|, |p.songs|, |p.events|, |p.setlists|);
  }

  /** Every save succeeding. */
  predicate AllSucceed(ok: nat -> bool, attempts: nat)
  {
    forall k :: 0 <= k < attempts ==> ok(k)
  }

  function Attempts(p: Document): nat
  {
    |p.members| + |p.songs| + |p.events| + |p.setlists|
  }

  /** When every save succeeds, each collection of the store is its old contents followed by the backup's. */
  lemma ImportAllSucceed(d: Document, p: Document, ok: nat -> bool)
    requires AllSucceed(ok, Attempts(p))
    ensures ImportedDocument(d, p, ok) ==
      Document(d.members + p.members, d.songs + p.songs, d.events + p.events, d.setlists + p.setlists)
  {
    var s := |p.members|;
    var e := s + |p.songs|;
    var l := e + |p.events|;
    SurvivorsComplete(p.members, ok, 0);
    SurvivorsComplete(p.songs, ok, s);
    SurvivorsComplete(p.events, ok, e);
    SurvivorsComplete(p.setlists, ok, l);
  }

  /** When every save fails, the import leaves the store's document as it was. */
  lemma ImportAllFail(d: Document, p: Document, ok: nat -> bool)
    requires forall k :: 0 <= k < Attempts(p) ==> !ok(k)
    ensures ImportedDocument(d, p, ok) == d
  {
    var s := |p.members|;
    var e := s + |p.songs|;
    var l := e + |p.events|;
    SurvivorsNone(p.members, ok, 0);
    SurvivorsNone(p.songs, ok, s);
    SurvivorsNone(p.events, ok, e);
    SurvivorsNone(p.setlists, ok, l);
    assert d.members + [] == d.members && d.songs + [] == d.songs;
    assert d.events + [] == d.events && d.setlists + [] == d.setlists;
  }

  /** An import never removes or reorders what the store held: each old collection is a prefix of the new one. */
  lemma ImportOnlyAppends(d: Document, p: Document, ok: nat -> bool)
    ensures var n := ImportedDocument(d, p, ok);
      && n.members[..|d.members|] == d.members && n.songs[..|d.songs|] == d.songs
      && n.events[..|d.events|] == d.events && n.setlists[..|d.setlists|] == d.setlists
      && |n.members| <= |d.members| + |p.members| && |n.songs| <= |d.songs| + |p.songs|
      && |n.events| <= |d.events| + |p.events| && |n.setlists| <= |d.setlists| + |p.setlists|
  {
    var s := |p.members|;
    var e := s + |p.songs|;
    var l := e + |p.events|;
    SurvivorsComplete(p.members, ok, 0);
    SurvivorsComplete(p.songs, ok, s);
    SurvivorsComplete(p.events, ok, e);
    SurvivorsComplete(p.setlists, ok, l);
    var n := ImportedDocument(d, p, ok);
    assert n.members[..|d.members|] == d.members;
    assert n.songs[..|d.songs|] == d.songs;
    assert n.events[..|d.events|] == d.events;
    assert n.setlists[..|d.setlists|] == d.setlists;
  }

  /** Every export is a backup the import accepts, holding exactly the exported document. */
  lemma ExportPassesValidation(d: Document, exportedAt: string)
    ensures Validate(Export(d, exportedAt)) == Success(d)
  {
    assert Truthy(Str(CurrentVersion)) by { assert CurrentVersion[0] == '1'; }
  }

  /** Exporting a store and importing it into an empty store, with every save succeeding, restores the document. */
  lemma ExportThenImportIntoEmpty(d: Document, exportedAt: string, ok: nat -> bool)
    requires AllSucceed(ok, Attempts(d))
    ensures Validate(Export(d, exportedAt)).Success?
    ensures ImportedDocument(EmptyDocument, Validate(Export(d, exportedAt)).value, ok) == d
  {
    ExportPassesValidation(d, exportedAt);
    ImportAllSucceed(EmptyDocument, d, ok);
    assert [] + d.members == d.members && [] + d.songs == d.songs;
    assert [] + d.events == d.events && [] + d.setlists == d.setlists;
  }

  /**
    Importing a store's own export back into it, with every save succeeding,
    doubles each collection: the import does not deduplicate.
  */
  lemma ExportThenImportDoubles(d: Document, exportedAt: string, ok: nat -> bool)
    requires AllSucceed(ok, Attempts(d))
    ensures Validate(Export(d, exportedAt)).Success?
    ensures ImportedDocument(d, Validate(Export(d, exportedAt)).value, ok) ==
      Document(d.members + d.members, d.songs + d.songs, d.events + d.events, d.setlists + d.setlists)
  {
    ExportPassesValidation(d, exportedAt);
    ImportAllSucceed(d, d, ok);
  }

  /** After that re-import, every member id present before has at least two records. */
  lemma ExportThenImportDuplicates(d: Document, exportedAt: string, ok: nat -> bool, memberId: string)
    requires AllSucceed(ok, Attempts(d))
    requires CountId(d.members, MemberId, memberId) > 0
    ensures CountId(ImportedDocument(d, Validate(Export(d, exportedAt)).value, ok).members, MemberId, memberId) >= 2
  {
    ExportThenImportDoubles(d, exportedAt, ok);
    CountConcat(d.members, d.members, MemberId, memberId);
  }
}
