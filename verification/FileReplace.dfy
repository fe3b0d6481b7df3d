/**
 The durable write of the journal (phase0/src/transactions.ts, writeJournalFile) and of the manifest
 (phase0/src/registrations.ts, save): a temporary file, written in however many pieces, then a rename.
 */
module FileReplace {
  import opened Wrappers
  import opened Utf16
  import opened Utf8
  import opened Device

  datatype Failure = Died | OpenFailed | WriteFailed | SyncFailed

  /** Where else the process may die, and whether the directory sync at the end fails. */
  datatype Fate = Fate(beforeOpen: bool, beforeRename: bool, afterRename: bool, syncFails: bool)

  class Directory {
    var files: map<Text, seq<Byte>>

    /** writeAll at growing positions of a fresh file. */
    method WriteAll(path: Text, bytes: seq<Byte>, device: nat -> WriteAnswer) returns (r: Result<(), Failure>)
      requires path in files && files[path] == []
      modifies this`files
      ensures files.Keys == old(files.Keys) && forall p :: p in files && p != path ==> files[p] == old(files)[p]
      ensures r.Ok? ==> files[path] == bytes
      ensures r.Err? ==> r.error == Died || r.error == WriteFailed
    {
      var offset, attempt := 0, 0;
      while offset < |bytes|
        invariant offset <= |bytes| && files.Keys == old(files.Keys) && files[path] == bytes[..offset]
        invariant forall p :: p in files && p != path ==> files[p] == old(files)[p]
        decreases |bytes| - offset
      {
        match device(attempt)
        case Throws =>
          return Err(WriteFailed);
        case Dies(after) =>
          files := files[path := bytes[..offset + Min(after, |bytes| - offset)]];
          return Err(Died);
        case Writes(most) =>
          var count := Min(most, |bytes| - offset);
          if count == 0 {
            return Err(WriteFailed);
          }
          files := files[path := bytes[..offset + count]];
          offset, attempt := offset + count, attempt + 1;
      }
      return Ok(());
    }

    /** What is at a path. */
    function At(path: Text): Option<seq<Byte>>
      reads this
    {
      if path in files then Some(files[path]) else None
    }

    /**
     Whatever happens, the path holds the old content or the new, and every other path but the temporary one is
     as it was. Without a death the temporary file is gone again.
     */
    method Replace(path: Text, temporary: Text, bytes: seq<Byte>, device: nat -> WriteAnswer, fate: Fate)
      returns (r: Result<(), Failure>)
      requires path != temporary
      modifies this`files
      ensures Replaced(old(At(path)), Some(bytes), At(path), r.Ok?)
      ensures forall p :: p != path && p != temporary ==> At(p) == old(At(p))
      ensures r.Err? && r.error != SyncFailed && r.error != Died ==> At(path) == old(At(path))
      ensures r != Err(Died) ==> At(temporary) == None
      ensures r == Err(SyncFailed) ==> At(path) == Some(bytes)
    {
      if fate.beforeOpen {
        return Err(Died);
      }
      if temporary in files {
        Discard(temporary);
        return Err(OpenFailed);
      }
      files := files[temporary := []];
      r := WriteAll(temporary, bytes, device);
      if r.Err? {
        if r.error != Died {
          Discard(temporary);
        }
        return;
      }
      if fate.beforeRename {
        return Err(Died);
      }
      files := (files - {temporary})[path := files[temporary]];
      if fate.afterRename {
        return Err(Died);
      }
      return if fate.syncFails then Err(SyncFailed) else Ok(());
    }

    /** The clean-up: unlink the temporary path. */
    method Discard(temporary: Text)
      modifies this`files
      ensures At(temporary) == None && forall p :: p != temporary ==> At(p) == old(At(p))
    {
      files := files - {temporary};
    }
  }
}
