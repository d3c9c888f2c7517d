/** Files as the bounded I/O functions see them: names, inodes and metadata. */
module Files {
  import opened Common

  type Name = nat
  type Ino = nat

  const READ_CHUNK := 1024 * 1024

  datatype Kind = Regular | Directory | SymbolicLink

  /** A file, and whether its contents have been synced since they were last written. */
  datatype Node = Node(kind: Kind, data: seq<Byte>, synced: bool)

  datatype World = World(names: map<Name, Ino>, nodes: map<Ino, Node>)

  datatype Stat = Stat(ino: Ino, kind: Kind, size: nat)

  function StatOf(w: World, i: Ino): Stat
    requires i in w.nodes
  {
    Stat(i, w.nodes[i].kind, |w.nodes[i].data|)
  }

  /** What `_lstat_path` gives: a missing final component, metadata, or an exception.  It refuses
      symbolic links. */
  datatype Look = Missing | Found(stat: Stat) | Unreadable

  function LookAt(w: World, name: Name): Look {
    if name !in w.names then Missing
    else if w.names[name] !in w.nodes || w.nodes[w.names[name]].kind == SymbolicLink then Unreadable
    else Found(StatOf(w, w.names[name]))
  }
}
