/** The cache directory as the store sees it, and what start-up recovers from it. */
module CacheDisk {
  import opened Options
  import opened Sums
  import opened CacheTables

  /** A directory entry's name: 64 lower-case hex characters (with the record suffix, for a record), or anything
      else. */
  datatype Name = Hex(digest: Digest) | Other(text: string)

  /** A layer.json that parses. */
  datatype LayerDoc = LayerDoc(v: int, diffID: Digest, bytes: nat)

  /** An entry of the layer store. other counts files the store did not write. */
  datatype LayerEntry = NotFolder | Folder(doc: Option<LayerDoc>, index: Option<nat>, other: nat)

  /** An image record that parses. */
  datatype RecordDoc = RecordDoc(v: int, id: Digest, layers: seq<Digest>, pinned: bool, lastUsed: int)

  /** An entry of the image store. */
  datatype RecordEntry = NotFile | Record(doc: Option<RecordDoc>, bytes: nat)

  datatype Disk = Disk(dirs: map<Name, LayerEntry>, records: map<Name, RecordEntry>)

  const SCHEMA_VERSION := 1

  /** The committed size of the layer directory, or None when it is not a committed layer of that name. */
  function ReadLayer(name: Name, e: LayerEntry): Option<nat> {
    if name.Hex? && e.Folder? && e.doc.Some? && e.index.Some?
       && e.doc.value.v == SCHEMA_VERSION && e.doc.value.diffID == name.digest
    then Some(e.doc.value.bytes + e.index.value + e.other) else None
  }

  /** A file whose name and contents make it an image record. */
  predicate ReadableRecord(name: Name, e: RecordEntry) {
    name.Hex? && e.Record? && e.doc.Some? && e.doc.value.v == SCHEMA_VERSION && e.doc.value.id == name.digest
  }

  function RecordLayers(e: RecordEntry): seq<Digest> {
    if e.Record? && e.doc.Some? then e.doc.value.layers else []
  }

  /** The record, or None when it is unreadable or names a layer outside known. */
  function ReadRecord(name: Name, e: RecordEntry, known: set<Digest>): Option<Image> {
    if ReadableRecord(name, e) && forall d | d in RecordLayers(e) :: d in known
    then Some(Image(e.doc.value.layers, e.doc.value.pinned, e.doc.value.lastUsed, e.bytes)) else None
  }

  /** The layer named d is committed on disk. */
  predicate Complete(disk: Disk, d: Digest) {
    Hex(d) in disk.dirs && ReadLayer(Hex(d), disk.dirs[Hex(d)]).Some?
  }

  /** Every record on disk is readable and has all its layers. */
  ghost predicate RecordsComplete(disk: Disk) {
    forall n | n in disk.records ::
      ReadableRecord(n, disk.records[n]) && forall d | d in RecordLayers(disk.records[n]) :: Complete(disk, d)
  }

  // ---------------------------------------------------------------- sweep

  /** The digests that name an entry. */
  function Digests(names: set<Name>): set<Digest> {
    set n | n in names && n.Hex? :: n.digest
  }

  function SweptLayers(dirs: map<Name, LayerEntry>): map<Digest, nat> {
    map d | d in Digests(dirs.Keys) && ReadLayer(Hex(d), dirs[Hex(d)]).Some? :: ReadLayer(Hex(d), dirs[Hex(d)]).value
  }

  function SweptImages(records: map<Name, RecordEntry>, known: set<Digest>): map<Digest, Image> {
    map i | i in Digests(records.Keys) && ReadRecord(Hex(i), records[Hex(i)], known).Some? ::
        ReadRecord(Hex(i), records[Hex(i)], known).value
  }

  /** The tables start-up rebuilds from the disk. */
  ghost function SweptTables(disk: Disk): Tables {
    var layers := SweptLayers(disk.dirs);
    FreshTables(layers, SweptImages(disk.records, layers.Keys))
  }

  ghost function FreshTables(layers: map<Digest, nat>, images: map<Digest, Image>): Tables {
    Tables(layers, images, SumMap(layers) + SumMap(RecordBytes(images)), {})
  }

  function KeptDirs(dirs: map<Name, LayerEntry>): map<Name, LayerEntry> {
    map n | n in dirs && ReadLayer(n, dirs[n]).Some? :: dirs[n]
  }

  function KeptRecords(records: map<Name, RecordEntry>, known: set<Digest>): map<Name, RecordEntry> {
    map n | n in records && ReadRecord(n, records[n], known).Some? :: records[n]
  }

  /** The disk start-up leaves behind. */
  function SweptDisk(disk: Disk): Disk {
    Disk(KeptDirs(disk.dirs), KeptRecords(disk.records, SweptLayers(disk.dirs).Keys))
  }

  lemma SweptLayerAt(dirs: map<Name, LayerEntry>, d: Digest)
    ensures d in SweptLayers(dirs) <==> Hex(d) in dirs && ReadLayer(Hex(d), dirs[Hex(d)]).Some?
    ensures d in SweptLayers(dirs) ==> SweptLayers(dirs)[d] == ReadLayer(Hex(d), dirs[Hex(d)]).value
  {
  }

  lemma SweptImageAt(records: map<Name, RecordEntry>, known: set<Digest>, i: Digest)
    ensures i in SweptImages(records, known) <==> Hex(i) in records && ReadRecord(Hex(i), records[Hex(i)], known).Some?
    ensures i in SweptImages(records, known)
        ==> SweptImages(records, known)[i] == ReadRecord(Hex(i), records[Hex(i)], known).value
  {
  }

  /** Whatever the disk held, the rebuilt tables are intact and account for exactly the retained bytes,
      and every record left on the disk has all its layers. */
  lemma SweepRestoresInvariants(disk: Disk)
    ensures Intact(SweptTables(disk)) && Slack(SweptTables(disk)) == 0
    ensures RecordsComplete(SweptDisk(disk))
  {
  }

  lemma SweptLayersStable(dirs: map<Name, LayerEntry>)
    ensures SweptLayers(KeptDirs(dirs)) == SweptLayers(dirs)
  {
  }

  lemma SweptImagesStable(records: map<Name, RecordEntry>, known: set<Digest>)
    ensures SweptImages(KeptRecords(records, known), known) == SweptImages(records, known)
  {
  }

  /** A second start finds nothing to do. */
  lemma SweepIdempotent(disk: Disk)
    ensures SweptDisk(SweptDisk(disk)) == SweptDisk(disk)
    ensures SweptTables(SweptDisk(disk)) == SweptTables(disk)
  {
    SweptLayersStable(disk.dirs);
    SweptImagesStable(disk.records, SweptLayers(disk.dirs).Keys);
    KeptDirsStable(disk.dirs);
    KeptRecordsStable(disk.records, SweptLayers(disk.dirs).Keys);
  }

  lemma KeptDirsStable(dirs: map<Name, LayerEntry>)
    ensures KeptDirs(KeptDirs(dirs)) == KeptDirs(dirs)
  {
  }

  lemma KeptRecordsStable(records: map<Name, RecordEntry>, known: set<Digest>)
    ensures KeptRecords(KeptRecords(records, known), known) == KeptRecords(records, known)
  {
  }

  /** A directory is a layer exactly when it holds an index and a schema 1 document of its own digest; the size is that
      of all its files. */
  lemma SweptLayersAre(disk: Disk, d: Digest)
    ensures var tb := SweptTables(disk);
            && (d in tb.layers <==>
                  && Hex(d) in disk.dirs && disk.dirs[Hex(d)].Folder?
                  && exists b: nat, i: nat, o: nat :: disk.dirs[Hex(d)] == Folder(Some(LayerDoc(1, d, b)), Some(i), o))
            && (forall b: nat, i: nat, o: nat | Hex(d) in disk.dirs
                && disk.dirs[Hex(d)] == Folder(Some(LayerDoc(1, d, b)), Some(i), o) :: tb.layers[d] == b + i + o)
  {
    if d in SweptTables(disk).layers {
      var e := disk.dirs[Hex(d)];
      assert e == Folder(Some(LayerDoc(1, d, e.doc.value.bytes)), Some(e.index.value), e.other);
    }
  }

  /** A file is an image exactly when it is a schema 1 record of its own id whose layers all are; the image is as the
      record says, and its size that of the file. */
  lemma SweptImagesAre(disk: Disk, id: Digest)
    ensures var tb := SweptTables(disk);
            && (id in tb.images <==>
                  && Hex(id) in disk.records
                  && exists ls, p, u, b :: disk.records[Hex(id)] == Record(Some(RecordDoc(1, id, ls, p, u)), b)
                       && forall d | d in ls :: d in tb.layers)
            && (id in tb.images ==> var img := tb.images[id];
                  disk.records[Hex(id)]
                  == Record(Some(RecordDoc(1, id, img.layers, img.pinned, img.lastUsed)), img.bytes))
  {
    if id in SweptTables(disk).images {
      var e := disk.records[Hex(id)];
      var v := e.doc.value;
      assert e == Record(Some(RecordDoc(1, id, v.layers, v.pinned, v.lastUsed)), e.bytes);
    }
  }

  /** The sweep discards a record exactly when it is unreadable or one of its layers is not complete. */
  lemma SweepKeepsExactly(disk: Disk, id: Digest)
    ensures id in SweptTables(disk).images <==>
              && Hex(id) in disk.records && ReadableRecord(Hex(id), disk.records[Hex(id)])
              && forall d | d in RecordLayers(disk.records[Hex(id)]) :: Complete(disk, d)
  {
  }

  /** The sweep discards no record exactly when all of them are complete. */
  lemma SweepKeepsAll(disk: Disk)
    ensures SweptDisk(disk).records == disk.records <==> RecordsComplete(disk)
  {
    var known := SweptLayers(disk.dirs).Keys;
    forall n | n in disk.records
      ensures n in SweptDisk(disk).records <==>
        ReadableRecord(n, disk.records[n]) && forall d | d in RecordLayers(disk.records[n]) :: Complete(disk, d)
    {
    }
  }
}
