/**
 * The part of the Node.js file system the logger touches: `stat`, `mkdir` (not recursive),
 * `writeFile` (create or truncate) and `appendFile` (create or extend). The disk is a map
 * from path to directory or file; `denied` holds the paths on which every call fails with
 * a permission error, standing for whatever makes an entry inaccessible.
 */
module Fs {
  import opened Paths
  import opened Outcomes

  datatype Node = Dir | File(text: string)

  datatype Disk = Disk(entries: map<Path, Node>, denied: set<Path>)

  datatype StatResult = Found(node: Node) | StatFailed(code: Errno)

  /** The root is a directory and every other entry sits in a directory. */
  ghost predicate Tree(d: Disk)
  {
    && [] in d.entries && d.entries[[]] == Dir
    && forall p :: p in d.entries && p != [] ==> Parent(p) in d.entries && d.entries[Parent(p)] == Dir
  }

  /** `p` names an entry whose parent is an existing directory. */
  predicate InDirectory(d: Disk, p: Path)
  {
    |p| > 0 && Parent(p) in d.entries && d.entries[Parent(p)] == Dir
  }

  /** The code for a path with no entry: `ENOTDIR` under a file, `ENOENT` otherwise. */
  function MissingCode(d: Disk, p: Path): (code: Errno)
    ensures code == ENOENT || code == ENOTDIR
    ensures code == ENOTDIR <==> |p| > 0 && Parent(p) in d.entries && d.entries[Parent(p)].File?
  {
    if |p| > 0 && Parent(p) in d.entries && d.entries[Parent(p)].File? then ENOTDIR else ENOENT
  }

  /** `fs.stat(p)`. */
  function StatOf(d: Disk, p: Path): (r: StatResult)
    ensures r.Found? <==> p !in d.denied && p in d.entries
    ensures r.Found? ==> r.node == d.entries[p]
    ensures r == StatFailed(ENOENT) ==> p !in d.entries
  {
    if p in d.denied then StatFailed(EACCES)
    else if p in d.entries then Found(d.entries[p])
    else StatFailed(MissingCode(d, p))
  }

  /** The current text of the file at `p`, empty when there is none. */
  function TextAt(d: Disk, p: Path): string
  {
    if p in d.entries && d.entries[p].File? then d.entries[p].text else ""
  }

  /** A write to `p` can go ahead: an existing file, or a new entry in a directory. */
  predicate Writable(d: Disk, p: Path)
  {
    p !in d.denied && if p in d.entries then d.entries[p].File? else InDirectory(d, p)
  }

  /** Why a write to `p` is refused, when it is. */
  function WriteRefusal(d: Disk, p: Path): (code: Errno)
    requires !Writable(d, p)
  {
    if p in d.denied then EACCES
    else if p in d.entries then EISDIR
    else MissingCode(d, p)
  }

  /** `fs.mkdir(p)`: a new directory in an existing one. */
  function MkdirOf(d: Disk, p: Path): (r: (Status, Disk))
    ensures r.1.denied == d.denied
    ensures r.0.Done? <==> p !in d.denied && p !in d.entries && InDirectory(d, p)
    ensures r.0.Done? ==> r.1.entries == d.entries[p := Dir]
    ensures r.0.Failed? ==> r.1 == d && r.0.error.SysError?
    ensures Tree(d) ==> Tree(r.1)
  {
    if p in d.denied then (Failed(SysError(EACCES)), d)
    else if p in d.entries then (Failed(SysError(EEXIST)), d)
    else if !InDirectory(d, p) then (Failed(SysError(MissingCode(d, p))), d)
    else (Done, d.(entries := d.entries[p := Dir]))
  }

  /** `fs.writeFile(p, text)`: the file at `p` holds exactly `text` afterwards. */
  function WriteFileOf(d: Disk, p: Path, text: string): (r: (Status, Disk))
    ensures r.1.denied == d.denied
    ensures r.0.Done? <==> Writable(d, p)
    ensures r.0.Done? ==> r.1.entries == d.entries[p := File(text)]
    ensures r.0.Failed? ==> r.1 == d && r.0.error.SysError?
    ensures Tree(d) ==> Tree(r.1)
  {
    if !Writable(d, p) then (Failed(SysError(WriteRefusal(d, p))), d)
    else (Done, d.(entries := d.entries[p := File(text)]))
  }

  /** `fs.appendFile(p, text)`: the file at `p` holds its old text followed by `text`. */
  function AppendFileOf(d: Disk, p: Path, text: string): (r: (Status, Disk))
    ensures r.1.denied == d.denied
    ensures r.0.Done? <==> Writable(d, p)
    ensures r.0.Done? ==> r.1.entries == d.entries[p := File(TextAt(d, p) + text)]
    ensures r.0.Done? && p !in d.entries ==> r.1.entries[p] == File(text)
    ensures r.0.Failed? ==> r.1 == d && r.0.error.SysError?
    ensures Tree(d) ==> Tree(r.1)
  {
    if !Writable(d, p) then (Failed(SysError(WriteRefusal(d, p))), d)
    else
      assert p !in d.entries ==> TextAt(d, p) + text == text;
      (Done, d.(entries := d.entries[p := File(TextAt(d, p) + text)]))
  }

  /** The file system as the process sees it; each method is one call of `fs`. */
  class FileSystem {
    var entries: map<Path, Node>
    var denied: set<Path>

    function State(): Disk
      reads this
    {
      Disk(entries, denied)
    }

    ghost predicate Valid()
      reads this
    {
      Tree(State())
    }

    constructor (initial: Disk)
      requires Tree(initial)
      ensures Valid() && State() == initial
    {
      entries := initial.entries;
      denied := initial.denied;
    }

    method Stat(p: Path) returns (r: StatResult)
      ensures r == StatOf(State(), p)
    {
      if p in denied {
        r := StatFailed(EACCES);
      } else if p in entries {
        r := Found(entries[p]);
      } else {
        r := StatFailed(MissingCode(State(), p));
      }
    }

    method Mkdir(p: Path) returns (r: Status)
      requires Valid()
      modifies this
      ensures Valid()
      ensures (r, State()) == MkdirOf(old(State()), p)
    {
      var outcome := MkdirOf(State(), p);
      r, entries := outcome.0, outcome.1.entries;
    }

    method WriteFile(p: Path, text: string) returns (r: Status)
      requires Valid()
      modifies this
      ensures Valid()
      ensures (r, State()) == WriteFileOf(old(State()), p, text)
    {
      var outcome := WriteFileOf(State(), p, text);
      r, entries := outcome.0, outcome.1.entries;
    }

    method AppendFile(p: Path, text: string) returns (r: Status)
      requires Valid()
      modifies this
      ensures Valid()
      ensures (r, State()) == AppendFileOf(old(State()), p, text)
    {
      var outcome := AppendFileOf(State(), p, text);
      r, entries := outcome.0, outcome.1.entries;
    }
  }
}
