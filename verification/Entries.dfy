/** Changeset entries, and the one projection of them that decides whether two paths are the same. */
module Entries {
  import opened ByteStrings

  type Int64 = x: int | -0x8000_0000_0000_0000 <= x < 0x8000_0000_0000_0000
  type Uint32 = x: int | 0 <= x < 0x1_0000_0000

  datatype Kind = File | Dir | Symlink | Hardlink | Device | Fifo | Whiteout | Opaque {
    /** The numeric value, which the stream writes and the entry order compares. */
    function Rank(): nat {
      match this
      case File => 0
      case Dir => 1
      case Symlink => 2
      case Hardlink => 3
      case Device => 4
      case Fifo => 5
      case Whiteout => 6
      case Opaque => 7
    }

    predicate Marker() {
      Whiteout? || Opaque?
    }
  }

  /** The kinds in the order of their numbers. */
  lemma RankIsPlace(k: Kind)
    ensures k.Rank() < 8 && [File, Dir, Symlink, Hardlink, Device, Fifo, Whiteout, Opaque][k.Rank()] == k
  {
  }

  /** The metadata an entry carries and a tree node keeps. */
  datatype Meta = Meta(kind: Kind, mode: Uint32, size: Int64, uid: Int64, gid: Int64, uname: Str, gname: Str,
                       devmajor: Int64, devminor: Int64, xattrs: map<Str, Str>, mtime: Int64, link: Str, sha: Str)

  datatype Entry = Entry(path: Str, meta: Meta)

  /** The tarsum-v1 field selection: every field but the modification time. */
  datatype Fields = Fields(kind: Kind, mode: nat, uid: Int64, gid: Int64, uname: Str, gname: Str, size: Int64,
                           link: Str, devmajor: Int64, devminor: Int64, xattrs: map<Str, Str>, sha: Str)

  /** The nine permission bits with setuid, setgid and sticky. */
  function PermBits(mode: Uint32): nat {
    mode % 0x1000
  }

  /** A directory has neither a size nor a content hash, whatever its header said. */
  function ProjectDir(f: Fields): Fields {
    if f.kind == Dir then f.(size := 0, sha := []) else f
  }

  function RawFields(m: Meta): Fields {
    Fields(m.kind, PermBits(m.mode), m.uid, m.gid, m.uname, m.gname, m.size, m.link, m.devmajor, m.devminor, m.xattrs,
        m.sha)
  }

  function FieldsOf(m: Meta): Fields {
    ProjectDir(RawFields(m))
  }

  /**
   * Two paths hold the same: every field but the modification time counts, the mode by its low twelve bits, and a
   * directory's size and content hash not at all.
   */
  ghost predicate SameMeta(a: Meta, b: Meta) {
    && a.kind == b.kind && a.mode % 4096 == b.mode % 4096
    && a.uid == b.uid && a.gid == b.gid && a.uname == b.uname && a.gname == b.gname
    && a.link == b.link && a.devmajor == b.devmajor && a.devminor == b.devminor && a.xattrs == b.xattrs
    && (a.kind == Dir || (a.size == b.size && a.sha == b.sha))
  }

  /** The projection tells two entries apart exactly when they do not hold the same. */
  lemma FieldsAgree(a: Meta, b: Meta)
    ensures FieldsOf(a) == FieldsOf(b) <==> SameMeta(a, b)
  {
  }

  /** What the projection keeps, and under which name. */
  lemma FieldsKept(m: Meta)
    ensures var f := FieldsOf(m);
            && f.kind == m.kind && f.mode == m.mode % 4096
            && f.uid == m.uid && f.gid == m.gid && f.uname == m.uname && f.gname == m.gname
            && f.link == m.link && f.devmajor == m.devmajor && f.devminor == m.devminor && f.xattrs == m.xattrs
            && f.size == (if m.kind == Dir then 0 else m.size) && f.sha == (if m.kind == Dir then [] else m.sha)
  {
  }

  /** The comparison the diff makes, field by field. */
  method SameFields(f: Fields, g: Fields) returns (same: bool)
    ensures same <==> f == g
  {
    if f.kind != g.kind || f.mode != g.mode || f.uid != g.uid || f.gid != g.gid || f.uname != g.uname
       || f.gname != g.gname || f.size != g.size || f.link != g.link || f.devmajor != g.devmajor
       || f.devminor != g.devminor || f.sha != g.sha {
      return false;
    }
    same := SameXattrs(f.xattrs, g.xattrs);
  }

  method SameXattrs(a: map<Str, Str>, b: map<Str, Str>) returns (same: bool)
    ensures same <==> a == b
  {
    if |a| != |b| {
      return false;
    }
    var todo := a.Keys;
    while todo != {}
      invariant todo <= a.Keys
      invariant forall k | k in a && k !in todo :: k in b && b[k] == a[k]
      decreases todo
    {
      var k :| k in todo;
      if k !in b || a[k] != b[k] {
        return false;
      }
      todo := todo - {k};
    }
    SameSizeSubset(a.Keys, b.Keys);
    return true;
  }

  lemma SameSizeSubset(a: set<Str>, b: set<Str>)
    requires a <= b && |a| == |b|
    ensures a == b
  {
    assert |b - a| == |b| - |a|;
  }
}
