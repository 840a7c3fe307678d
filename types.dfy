/**
  The records of the setlist tool: members, songs, events and setlists,
  as declared in src/types/index.ts. All ids are strings chosen by the client.
*/
module Types {

  datatype Option<T> = None | Some(value: T)

  /** An error path carrying a human-readable reason. */
  datatype Result<T> = Success(value: T) | Failure(error: string)

  datatype MemberStatus = Active | Inactive | Hiatus

  datatype Member = Member(
    id: string,
    name: string,
    nameJa: string,
    birthDate: string,
    joinDate: string,
    imageUrl: Option<string>,
    status: MemberStatus)

  datatype Song = Song(
    id: string,
    title: string,
    titleJa: string,
    releaseDate: Option<string>,
    duration: int,                      // seconds
    defaultSelectMembers: seq<string>,  // member ids
    imageUrl: Option<string>)

  datatype Event = Event(
    id: string,
    date: string,
    name: string,
    venue: string,
    participatingMembers: seq<string>,  // member ids
    notes: Option<string>)

  /** One slot of a setlist: a song and the members who perform it there. */
  datatype SetlistSong = SetlistSong(
    songId: string,
    selectedMembers: seq<string>,       // member ids
    notes: Option<string>)

  datatype Setlist = Setlist(
    id: string,
    eventId: string,
    songs: seq<SetlistSong>,            // performance order
    createdAt: string,
    updatedAt: string)

  // The id of each kind of record, as a first-class key function.
  function MemberId(m: Member): string { m.id }
  function SongId(s: Song): string { s.id }
  function EventId(e: Event): string { e.id }
  function SetlistId(s: Setlist): string { s.id }
}

/** Facts about sequences shared by the storage and prediction models. */
module Sequences {

  /** ys can be obtained from xs by deleting elements (order is kept). */
  predicate IsSubsequence<T(==)>(ys: seq<T>, xs: seq<T>)
    decreases |xs|
  {
    if ys == [] then true
    else if xs == [] then false
    else (ys[0] == xs[0] && IsSubsequence(ys[1..], xs[1..])) || IsSubsequence(ys, xs[1..])
  }

  function Min(a: int, b: int): int { if a <= b then a else b }
  function Max(a: int, b: int): int { if a >= b then a else b }
}
