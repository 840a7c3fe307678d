/**
  `initializeStorage` (src/lib/storageInit.ts): one save of the seed
  collections over whatever the data file held before.
*/
module StorageInit {
  import opened Types
  import opened Storage

  // The seed collections of src/data/dummyData.ts, represented by their first
  // record each; the remaining literal records are not reproduced.
  const SeedMembers: seq<Member> :=
    [Member("1", "Mint", "ミント", "2001-03-15", "2019-06-01", None, Active)]
  const SeedSongs: seq<Song> :=
    [Song("s1", "Hato Bito Love", "ハトビトラブ", Some("2021-01-15"), 240,
          ["1", "2", "3", "4", "5", "6", "7", "8", "9"], None)]
  const SeedEvents: seq<Event> :=
    [Event("e1", "2024-01-15", "Hato Bito Live vol.1", "Bangkok Studio",
           ["1", "2", "3", "4", "5", "6", "7", "8", "9", "10", "11", "12", "13", "14", "15", "16"], None)]
  const SeedSetlists: seq<Setlist> :=
    [Setlist("sl1", "e1",
             [SetlistSong("s1", ["1", "2", "3", "4", "5", "6", "7", "8", "9"], None),
              SetlistSong("s2", ["1", "2", "4", "5", "7", "9", "11", "13", "15"], None),
              SetlistSong("s4", ["1", "3", "4", "6", "7", "9", "11", "13", "14"], None),
              SetlistSong("s5", ["1", "2", "3", "5", "8", "10", "12", "15", "16"], None)],
             "2024-01-15T10:00:00Z", "2024-01-15T10:00:00Z")]

  const Seed := Document(SeedMembers, SeedSongs, SeedEvents, SeedSetlists)

  datatype InitOutcome = Initialized | InitFailed

  /**
    Overwrites the file with the seed, whatever it held. The result does not
    depend on the old content, so a second call leaves the same state as one.
    A failed write is passed on to the caller.
  */
  method InitializeStorage(file: DataFile, writeOk: bool) returns (r: InitOutcome)
    modifies file
    ensures writeOk ==> r == Initialized && file.content == Json(Seed) && file.Load() == Seed
    ensures !writeOk ==> r == InitFailed && file.content == old(file.content)
  {
    var data := new StorageData(Seed);
    var saved := SaveData(file, data, writeOk);
    r := if saved then Initialized else InitFailed;
  }
}
