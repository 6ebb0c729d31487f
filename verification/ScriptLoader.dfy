/** The compiled script that batches read, and its replacement on reload. */
module ScriptLoader {
  import opened Prelude

  /** A compiled script, identified by the text it was compiled from. */
  datatype CompiledScript = CompiledScript(text: string)

  /** Shared between the loader, which stores, and the processor, which reads. */
  class ScriptHandle {
    var current: CompiledScript
    ghost var stored: seq<CompiledScript>

    ghost predicate Valid()
      reads this
    {
      stored != [] && stored[|stored| - 1] == current
    }

    constructor (script: CompiledScript)
      ensures Valid() && current == script && stored == [script]
    {
      current := script;
      stored := [script];
    }

    method Put(script: CompiledScript)
      requires Valid()
      modifies this
      ensures Valid() && current == script && stored == old(stored) + [script]
    {
      current := script;
      stored := stored + [script];
    }
  }

  class Loader {
    const handle: ScriptHandle

    constructor (handle: ScriptHandle)
      ensures this.handle == handle
    {
      this.handle := handle;
    }

    /** Re-reads and recompiles; on either failure the script in place stays. */
    method Reload(text: Option<string>, compiles: bool) returns (ok: bool)
      requires handle.Valid()
      modifies handle
      ensures handle.Valid()
      ensures ok == (text.Some? && compiles)
      ensures ok ==> handle.current == CompiledScript(text.value)
      ensures ok ==> handle.stored == old(handle.stored) + [handle.current]
      ensures !ok ==> handle.current == old(handle.current) && handle.stored == old(handle.stored)
    {
      if text.None? { return false; }
      if !compiles { return false; }
      handle.Put(CompiledScript(text.value));
      ok := true;
    }
  }
}
