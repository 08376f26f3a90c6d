/** The values of the `pbm` package that the agent's snapshot code exchanges
    with its collaborators: commands, lock headers and node identity. */
module Pbm {

  /** The command kinds that appear in lock headers. */
  datatype Command = CmdBackup | CmdRestore | CmdPITR

  /** Key of a distributed lock. Fields a header does not set stay empty,
      as Go's zero value for a string. */
  datatype LockHeader = LockHeader(typ: Command, replset: string, node: string, backupName: string)

  /** A backup command; only its name is used by the coordination code. */
  datatype BackupCmd = BackupCmd(name: string)

  /** A restore command: its own name and the name of the backup it restores. */
  datatype RestoreCmd = RestoreCmd(name: string, backupName: string)

  /** What the node reports about itself: its replica set, its own id and its role. */
  datatype NodeInfo = NodeInfo(setName: string, me: string, isPrimary: bool)

  /** The header under which the PITR slicer holds its lock for a replica set. */
  function PitrLock(setName: string): LockHeader
  {
    LockHeader(CmdPITR, setName, "", "")
  }

  /** The header a node takes before running backup `b`. */
  function BackupLock(ni: NodeInfo, b: BackupCmd): LockHeader
  {
    LockHeader(CmdBackup, ni.setName, ni.me, b.name)
  }

  /** The header a primary takes before running restore `r`: it is keyed by the
      restore's own name, not by the name of the backup being restored. */
  function RestoreLock(ni: NodeInfo, r: RestoreCmd): LockHeader
  {
    LockHeader(CmdRestore, ni.setName, ni.me, r.name)
  }

  /** The PITR, backup and restore headers never coincide, whatever the nodes
      and commands: a backup never takes or releases a restore's or the
      slicer's lock by mistake. */
  lemma LockKindsDistinct(setName: string, ni: NodeInfo, b: BackupCmd, ni': NodeInfo, r: RestoreCmd)
    ensures PitrLock(setName) != BackupLock(ni, b)
    ensures PitrLock(setName) != RestoreLock(ni', r)
    ensures BackupLock(ni, b) != RestoreLock(ni', r)
  {
  }

  /** Two backup headers are the same exactly when they name the same replica
      set, node and backup. */
  lemma BackupLockKey(ni: NodeInfo, b: BackupCmd, ni': NodeInfo, b': BackupCmd)
    ensures BackupLock(ni, b) == BackupLock(ni', b')
        <==> ni.setName == ni'.setName && ni.me == ni'.me && b == b'
  {
  }

  /** Two restore headers are the same exactly when they name the same replica
      set, node and restore name; the backup being restored plays no part, so
      two restores of different backups under one name share a lock. */
  lemma RestoreLockKey(ni: NodeInfo, r: RestoreCmd, ni': NodeInfo, r': RestoreCmd)
    ensures RestoreLock(ni, r) == RestoreLock(ni', r')
        <==> ni.setName == ni'.setName && ni.me == ni'.me && r.name == r'.name
  {
  }
}
