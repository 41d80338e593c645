/**
 * The sandbox facade (Sandbox): an entry reference set by `open`, a lazily
 * created global cleared by `reset`, and a module importer it drives.
 *
 * The importer is modelled as a collaborator that records the calls made on
 * it; whether its n-th import completes or rejects is a parameter. The global
 * factory is a parameter giving the value of its n-th call. Observer
 * notifications are an append-only event log.
 *
 * `open` is asynchronous: everything before its `await` runs when it is
 * called, the `Evaluated` notification runs after the import settles. The
 * model splits it there (BeginOpen / EndOpen), so that `onImporterChange`,
 * which does not await `reset`, can be stated in the order JavaScript runs it.
 */
module Sandbox {
  import opened Common

  /** What the global factory returns; every falsy JavaScript value is `Falsy`. */
  datatype GlobalValue = Falsy | Context(id: nat)

  datatype ImporterCall =
    | ImportCall(mimeType: string, filePath: string, relativePath: Option<string>)
    | ResetImporter

  datatype Entry = Entry(envMimeType: string, filePath: string)

  datatype ChangeAction = ChangeAction(kind: string)

  datatype Event = Evaluated | Forwarded(action: ChangeAction)

  /** The module importer, seen only through the calls made on it. */
  class ModuleImporter {
    /** Whether the n-th import (counting from 0) completes; false when it rejects. */
    const outcome: nat -> bool
    var calls: seq<ImporterCall>
    var importCount: nat

    constructor (outcome: nat -> bool)
      ensures this.outcome == outcome && calls == [] && importCount == 0
    {
      this.outcome := outcome;
      calls := [];
      importCount := 0;
    }

    method Import(mimeType: string, filePath: string, relativePath: Option<string>) returns (completed: bool)
      modifies this
      ensures calls == old(calls) + [ImportCall(mimeType, filePath, relativePath)]
      ensures importCount == old(importCount) + 1
      ensures completed == outcome(old(importCount))
    {
      completed := outcome(importCount);
      calls := calls + [ImportCall(mimeType, filePath, relativePath)];
      importCount := importCount + 1;
    }

    method Reset()
      modifies this
      ensures calls == old(calls) + [ResetImporter]
      ensures importCount == old(importCount)
    {
      calls := calls + [ResetImporter];
    }
  }

  class Sandbox {
    const importer: ModuleImporter
    /** The global factory's result on its n-th call (counting from 0). */
    const createGlobal: nat -> GlobalValue

    var entry: Option<Entry>
    var cachedGlobal: GlobalValue
    var factoryCalls: nat
    var events: seq<Event>

    constructor (createGlobal: nat -> GlobalValue, importOutcome: nat -> bool)
      ensures this.createGlobal == createGlobal && fresh(importer)
      ensures importer.outcome == importOutcome && importer.calls == [] && importer.importCount == 0
      ensures entry == None && cachedGlobal == Falsy && factoryCalls == 0 && events == []
    {
      this.createGlobal := createGlobal;
      importer := new ModuleImporter(importOutcome);
      entry := None;
      cachedGlobal := Falsy;
      factoryCalls := 0;
      events := [];
    }

    /** The `global` getter: the cached value when it is truthy, otherwise a
        new value from the factory, which is cached whatever it is. */
    method Global() returns (g: GlobalValue)
      modifies this`cachedGlobal, this`factoryCalls
      ensures old(cachedGlobal) != Falsy ==>
                g == old(cachedGlobal) && cachedGlobal == old(cachedGlobal) && factoryCalls == old(factoryCalls)
      ensures old(cachedGlobal) == Falsy ==>
                g == createGlobal(old(factoryCalls)) && cachedGlobal == g && factoryCalls == old(factoryCalls) + 1
    {
      if cachedGlobal != Falsy {
        g := cachedGlobal;
      } else {
        g := createGlobal(factoryCalls);
        factoryCalls := factoryCalls + 1;
        cachedGlobal := g;
      }
    }

    /** `open` up to its await: the entry is recorded (without the relative
        path) before the import starts, so it is updated even if the import
        later rejects. Returns whether the import will complete. */
    method BeginOpen(envMimeType: string, filePath: string, relativePath: Option<string>) returns (completed: bool)
      modifies this`entry, importer
      ensures entry == Some(Entry(envMimeType, filePath))
      ensures importer.calls == old(importer.calls) + [ImportCall(envMimeType, filePath, relativePath)]
      ensures importer.importCount == old(importer.importCount) + 1
      ensures completed == importer.outcome(old(importer.importCount))
    {
      entry := Some(Entry(envMimeType, filePath));
      completed := importer.Import(envMimeType, filePath, relativePath);
    }

    /** `open` after its await: `Evaluated` is sent only when the import completed. */
    method EndOpen(completed: bool)
      modifies this`events
      ensures events == old(events) + (if completed then [Evaluated] else [])
    {
      if completed {
        events := events + [Evaluated];
      }
    }

    method Open(envMimeType: string, filePath: string, relativePath: Option<string>)
      modifies this`entry, this`events, importer
      ensures entry == Some(Entry(envMimeType, filePath))
      ensures importer.calls == old(importer.calls) + [ImportCall(envMimeType, filePath, relativePath)]
      ensures importer.importCount == old(importer.importCount) + 1
      ensures events == old(events) + (if importer.outcome(old(importer.importCount)) then [Evaluated] else [])
    {
      var completed := BeginOpen(envMimeType, filePath, relativePath);
      EndOpen(completed);
    }

    /** `reset` up to the await of its re-open: the importer is reset, the
        global cleared and, only if an entry was recorded, the same entry is
        re-opened without a relative path. Returns the pending import's
        outcome, or None when nothing was opened. */
    method BeginReset() returns (pending: Option<bool>)
      modifies this`entry, this`cachedGlobal, importer
      ensures cachedGlobal == Falsy && entry == old(entry)
      ensures pending.Some? <==> old(entry).Some?
      ensures old(entry).None? ==>
                importer.calls == old(importer.calls) + [ResetImporter] && importer.importCount == old(importer.importCount)
      ensures old(entry).Some? ==>
                && importer.calls == old(importer.calls) + [ResetImporter, ImportCall(old(entry).value.envMimeType, old(entry).value.filePath, None)]
                && importer.importCount == old(importer.importCount) + 1
                && pending.value == importer.outcome(old(importer.importCount))
    {
      importer.Reset();
      cachedGlobal := Falsy;
      pending := None;
      if entry.Some? {
        var completed := BeginOpen(entry.value.envMimeType, entry.value.filePath, None);
        pending := Some(completed);
      }
    }

    method Reset()
      modifies this`entry, this`cachedGlobal, this`events, importer
      ensures cachedGlobal == Falsy && entry == old(entry)
      ensures importer.importCount == old(importer.importCount) + (if old(entry).Some? then 1 else 0)
      ensures old(entry).None? ==>
                importer.calls == old(importer.calls) + [ResetImporter] && events == old(events)
      ensures old(entry).Some? ==>
                && importer.calls == old(importer.calls) + [ResetImporter, ImportCall(old(entry).value.envMimeType, old(entry).value.filePath, None)]
                && events == old(events) + (if importer.outcome(old(importer.importCount)) then [Evaluated] else [])
    {
      var pending := BeginReset();
      if pending.Some? {
        EndOpen(pending.value);
      }
    }

    /** An importer change: reset runs to its first await, the change is
        re-broadcast, and `Evaluated` follows once the re-open's import completes. */
    method OnImporterChange(action: ChangeAction)
      modifies this`entry, this`cachedGlobal, this`events, importer
      ensures cachedGlobal == Falsy && entry == old(entry)
      ensures importer.importCount == old(importer.importCount) + (if old(entry).Some? then 1 else 0)
      ensures old(entry).None? ==>
                importer.calls == old(importer.calls) + [ResetImporter] && events == old(events) + [Forwarded(action)]
      ensures old(entry).Some? ==>
                && importer.calls == old(importer.calls) + [ResetImporter, ImportCall(old(entry).value.envMimeType, old(entry).value.filePath, None)]
                && events == old(events) + [Forwarded(action)] + (if importer.outcome(old(importer.importCount)) then [Evaluated] else [])
    {
      var pending := BeginReset();
      events := events + [Forwarded(action)];
      if pending.Some? {
        EndOpen(pending.value);
      }
    }
  }

  /** Two reads of `global` with no reset between them agree and call the
      factory at most once when the value is truthy; a falsy value is not
      kept, so the second read calls the factory again. */
  method ReadGlobalTwice(sandbox: Sandbox) returns (first: GlobalValue, second: GlobalValue)
    modifies sandbox
    ensures first != Falsy ==> second == first
    ensures first != Falsy ==>
              sandbox.factoryCalls == old(sandbox.factoryCalls) + (if old(sandbox.cachedGlobal) == Falsy then 1 else 0)
    ensures first == Falsy ==>
              sandbox.factoryCalls == old(sandbox.factoryCalls) + 2 && second == sandbox.createGlobal(old(sandbox.factoryCalls) + 1)
  {
    first := sandbox.Global();
    second := sandbox.Global();
  }

  /** After a reset, the next read of `global` calls the factory again. */
  method GlobalAfterReset(sandbox: Sandbox) returns (before: GlobalValue, after: GlobalValue)
    modifies sandbox, sandbox.importer
    ensures sandbox.factoryCalls == old(sandbox.factoryCalls) + (if old(sandbox.cachedGlobal) == Falsy then 2 else 1)
    ensures after == sandbox.createGlobal(sandbox.factoryCalls - 1)
    ensures sandbox.cachedGlobal == after
  {
    before := sandbox.Global();
    sandbox.Reset();
    after := sandbox.Global();
  }
}
