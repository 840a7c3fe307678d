/**
  `GET /api/export` (src/app/api/export/route.ts): the current document
  wrapped in a version-1.0 backup with a timestamp. The timestamp comes
  from the clock and is a parameter here.
*/
module ExportRoute {
  import opened Types
  import opened Storage
  import opened Backup

  /** The backup object built from a document. */
  function Export(d: Document, exportedAt: string): Envelope
  {
    Envelope(Str(CurrentVersion), Str(exportedAt),
             TruthyData(Array(d.members), Array(d.songs), Array(d.events), Array(d.setlists)))
  }

  /** The handler reads the store (getAllData) and changes nothing. */
  method Get(file: DataFile, exportedAt: string) returns (backup: Envelope)
    ensures backup.version == Str("1.0") && backup.exportedAt == Str(exportedAt)
    ensures backup.data.TruthyData?
    ensures backup.data.members == Array(file.Load().members) && backup.data.songs == Array(file.Load().songs)
    ensures backup.data.events == Array(file.Load().events) && backup.data.setlists == Array(file.Load().setlists)
  {
    var data := GetAllData(file);
    backup := Export(data.Snapshot(), exportedAt);
  }
}
