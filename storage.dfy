/**
  The single storage document and its repository operations
  (src/lib/storage.ts). The durable file is abstract state: it is missing,
  holds text that does not parse, or holds a document. Every repository
  operation loads a fresh working copy, edits one collection of it, saves
  the whole copy and returns it.
*/
module Storage {
  import opened Types
  import opened Collections

  /** A value snapshot of the four collections. */
  datatype Document = Document(
    members: seq<Member>,
    songs: seq<Song>,
    events: seq<Event>,
    setlists: seq<Setlist>)

  const EmptyDocument := Document([], [], [], [])

  /** What the data file holds. */
  datatype FileContent = Missing | Unparsable | Json(doc: Document)

  /** The durable data file (storage.json). */
  class DataFile {
    var content: FileContent

    constructor (initial: FileContent)
      ensures content == initial
    {
      content := initial;
    }

    /** The document loadData would produce: the stored one, or four empty collections. */
    function Load(): (d: Document)
      reads this
      ensures content.Json? ==> d == content.doc
      ensures !content.Json? ==> d.members == [] && d.songs == [] && d.events == [] && d.setlists == []
    {
      if content.Json? then content.doc else EmptyDocument
    }
  }

  /** The working object returned by loadData, whose collections the operations edit in place. */
  class StorageData {
    var members: seq<Member>
    var songs: seq<Song>
    var events: seq<Event>
    var setlists: seq<Setlist>

    constructor (d: Document)
      ensures Snapshot() == d
    {
      members, songs, events, setlists := d.members, d.songs, d.events, d.setlists;
    }

    function Snapshot(): Document
      reads this
    {
      Document(members, songs, events, setlists)
    }
  }

  /** What a repository operation ends with: the saved copy, or the rethrown write error. */
  datatype Outcome = Saved(data: StorageData) | SaveFailed

  /** `loadData`: never fails; a missing or unparsable file yields the empty document. */
  method LoadData(file: DataFile) returns (data: StorageData)
    ensures fresh(data)
    ensures data.Snapshot() == file.Load()
  {
    data := new StorageData(file.Load());
  }

  /**
    `saveData`: writeOk is the outcome of the file system write. On failure the
    error is rethrown (saved is false) and the file keeps its old content.
  */
  method SaveData(file: DataFile, data: StorageData, writeOk: bool) returns (saved: bool)
    modifies file
    ensures saved == writeOk
    ensures saved ==> file.content == Json(data.Snapshot())
    ensures !saved ==> file.content == old(file.content)
  {
    if writeOk {
      file.content := Json(data.Snapshot());
    }
    saved := writeOk;
  }

  /** `getAllData` */
  method GetAllData(file: DataFile) returns (data: StorageData)
    ensures fresh(data)
    ensures data.Snapshot() == file.Load()
  {
    data := LoadData(file);
  }

  // Member operations

  method AddMember(file: DataFile, member: Member, writeOk: bool) returns (r: Outcome)
    modifies file
    ensures var d := old(file.Load());
      writeOk ==> r.Saved? && fresh(r.data) && file.content == Json(r.data.Snapshot()) &&
                  r.data.Snapshot() == d.(members := d.members + [member])
    ensures !writeOk ==> r.SaveFailed? && file.content == old(file.content)
  {
    var data := LoadData(file);
    data.members := data.members + [member];
    var saved := SaveData(file, data, writeOk);
    r := if saved then Saved(data) else SaveFailed;
  }

  method UpdateMember(file: DataFile, member: Member, writeOk: bool) returns (r: Outcome)
    modifies file
    ensures var d := old(file.Load());
      writeOk ==> r.Saved? && fresh(r.data) && file.content == Json(r.data.Snapshot()) &&
                  r.data.Snapshot() == d.(members := ReplaceById(d.members, MemberId, member))
    ensures !writeOk ==> r.SaveFailed? && file.content == old(file.content)
  {
    var data := LoadData(file);
    data.members := ReplaceById(data.members, MemberId, member);
    var saved := SaveData(file, data, writeOk);
    r := if saved then Saved(data) else SaveFailed;
  }

  method DeleteMember(file: DataFile, memberId: string, writeOk: bool) returns (r: Outcome)
    modifies file
    ensures var d := old(file.Load());
      writeOk ==> r.Saved? && fresh(r.data) && file.content == Json(r.data.Snapshot()) &&
                  r.data.Snapshot() == d.(members := RemoveById(d.members, MemberId, memberId))
    ensures !writeOk ==> r.SaveFailed? && file.content == old(file.content)
  {
    var data := LoadData(file);
    data.members := RemoveById(data.members, MemberId, memberId);
    var saved := SaveData(file, data, writeOk);
    r := if saved then Saved(data) else SaveFailed;
  }

  // Song operations

  method AddSong(file: DataFile, song: Song, writeOk: bool) returns (r: Outcome)
    modifies file
    ensures var d := old(file.Load());
      writeOk ==> r.Saved? && fresh(r.data) && file.content == Json(r.data.Snapshot()) &&
                  r.data.Snapshot() == d.(songs := d.songs + [song])
    ensures !writeOk ==> r.SaveFailed? && file.content == old(file.content)
  {
    var data := LoadData(file);
    data.songs := data.songs + [song];
    var saved := SaveData(file, data, writeOk);
    r := if saved then Saved(data) else SaveFailed;
  }

  method UpdateSong(file: DataFile, song: Song, writeOk: bool) returns (r: Outcome)
    modifies file
    ensures var d := old(file.Load());
      writeOk ==> r.Saved? && fresh(r.data) && file.content == Json(r.data.Snapshot()) &&
                  r.data.Snapshot() == d.(songs := ReplaceById(d.songs, SongId, song))
    ensures !writeOk ==> r.SaveFailed? && file.content == old(file.content)
  {
    var data := LoadData(file);
    data.songs := ReplaceById(data.songs, SongId, song);
    var saved := SaveData(file, data, writeOk);
    r := if saved then Saved(data) else SaveFailed;
  }

  method DeleteSong(file: DataFile, songId: string, writeOk: bool) returns (r: Outcome)
    modifies file
    ensures var d := old(file.Load());
      writeOk ==> r.Saved? && fresh(r.data) && file.content == Json(r.data.Snapshot()) &&
                  r.data.Snapshot() == d.(songs := RemoveById(d.songs, SongId, songId))
    ensures !writeOk ==> r.SaveFailed? && file.content == old(file.content)
  {
    var data := LoadData(file);
    data.songs := RemoveById(data.songs, SongId, songId);
    var saved := SaveData(file, data, writeOk);
    r := if saved then Saved(data) else SaveFailed;
  }

  // Event operations

  method AddEvent(file: DataFile, event: Event, writeOk: bool) returns (r: Outcome)
    modifies file
    ensures var d := old(file.Load());
      writeOk ==> r.Saved? && fresh(r.data) && file.content == Json(r.data.Snapshot()) &&
                  r.data.Snapshot() == d.(events := d.events + [event])
    ensures !writeOk ==> r.SaveFailed? && file.content == old(file.content)
  {
    var data := LoadData(file);
    data.events := data.events + [event];
    var saved := SaveData(file, data, writeOk);
    r := if saved then Saved(data) else SaveFailed;
  }

  method UpdateEvent(file: DataFile, event: Event, writeOk: bool) returns (r: Outcome)
    modifies file
    ensures var d := old(file.Load());
      writeOk ==> r.Saved? && fresh(r.data) && file.content == Json(r.data.Snapshot()) &&
                  r.data.Snapshot() == d.(events := ReplaceById(d.events, EventId, event))
    ensures !writeOk ==> r.SaveFailed? && file.content == old(file.content)
  {
    var data := LoadData(file);
    data.events := ReplaceById(data.events, EventId, event);
    var saved := SaveData(file, data, writeOk);
    r := if saved then Saved(data) else SaveFailed;
  }

  method DeleteEvent(file: DataFile, eventId: string, writeOk: bool) returns (r: Outcome)
    modifies file
    ensures var d := old(file.Load());
      writeOk ==> r.Saved? && fresh(r.data) && file.content == Json(r.data.Snapshot()) &&
                  r.data.Snapshot() == d.(events := RemoveById(d.events, EventId, eventId))
    ensures !writeOk ==> r.SaveFailed? && file.content == old(file.content)
  {
    var data := LoadData(file);
    data.events := RemoveById(data.events, EventId, eventId);
    var saved := SaveData(file, data, writeOk);
    r := if saved then Saved(data) else SaveFailed;
  }

  // Setlist operations

  method AddSetlist(file: DataFile, setlist: Setlist, writeOk: bool) returns (r: Outcome)
    modifies file
    ensures var d := old(file.Load());
      writeOk ==> r.Saved? && fresh(r.data) && file.content == Json(r.data.Snapshot()) &&
                  r.data.Snapshot() == d.(setlists := d.setlists + [setlist])
    ensures !writeOk ==> r.SaveFailed? && file.content == old(file.content)
  {
    var data := LoadData(file);
    data.setlists := data.setlists + [setlist];
    var saved := SaveData(file, data, writeOk);
    r := if saved then Saved(data) else SaveFailed;
  }

  method UpdateSetlist(file: DataFile, setlist: Setlist, writeOk: bool) returns (r: Outcome)
    modifies file
    ensures var d := old(file.Load());
      writeOk ==> r.Saved? && fresh(r.data) && file.content == Json(r.data.Snapshot()) &&
                  r.data.Snapshot() == d.(setlists := ReplaceById(d.setlists, SetlistId, setlist))
    ensures !writeOk ==> r.SaveFailed? && file.content == old(file.content)
  {
    var data := LoadData(file);
    data.setlists := ReplaceById(data.setlists, SetlistId, setlist);
    var saved := SaveData(file, data, writeOk);
    r := if saved then Saved(data) else SaveFailed;
  }

  method DeleteSetlist(file: DataFile, setlistId: string, writeOk: bool) returns (r: Outcome)
    modifies file
    ensures var d := old(file.Load());
      writeOk ==> r.Saved? && fresh(r.data) && file.content == Json(r.data.Snapshot()) &&
                  r.data.Snapshot() == d.(setlists := RemoveById(d.setlists, SetlistId, setlistId))
    ensures !writeOk ==> r.SaveFailed? && file.content == old(file.content)
  {
    var data := LoadData(file);
    data.setlists := RemoveById(data.setlists, SetlistId, setlistId);
    var saved := SaveData(file, data, writeOk);
    r := if saved then Saved(data) else SaveFailed;
  }
}
