/** The memory card under the photo store: a map from paths to file contents, changed by the five
    primitive operations the store uses. Each of them may fail. The ghost trace records the card
    after every primitive step, so a crash can be placed after any of them; the ghost faults record the
    paths of the operations whose failure the store has seen, and failed unlinks are counted apart. */
module CardFiles {
  import opened CText

  datatype Directory = Config | Photos | Thumbnails
  datatype Path = Path(dir: Directory, name: string)
  type Files = map<Path, string>

  function Temporary(p: Path): (t: Path)
    ensures IsTemporary(t)
  {
    Path(p.dir, p.name + ".tmp")
  }

  predicate IsTemporary(p: Path) {
    EndsWith(p.name, ".tmp")
  }

  ghost predicate SameAt(a: Files, b: Files, p: Path) {
    (p in a <==> p in b) && (p in a && p in b ==> a[p] == b[p])
  }

  /** Two cards hold the same completed files, except perhaps at the touched paths. */
  ghost predicate SameExcept(a: Files, b: Files, touched: set<Path>) {
    forall p | !IsTemporary(p) && p !in touched :: SameAt(a, b, p)
  }

  /** The states from a point of a trace on: each shows the completed files of a or of b. */
  ghost predicate EachShows(trace: seq<Files>, from: nat, a: Files, b: Files) {
    forall k | from <= k < |trace| :: SameExcept(trace[k], a, {}) || SameExcept(trace[k], b, {})
  }

  /** The states from a point of a trace on differ from a base only at the touched paths. */
  ghost predicate EachWithin(trace: seq<Files>, from: nat, base: Files, touched: set<Path>) {
    forall k | from <= k < |trace| :: SameExcept(trace[k], base, touched)
  }

  class Card {
    var files: Files
    var stream: Path
    var buffer: string
    ghost var trace: seq<Files>
    ghost var faults: seq<Path>
    ghost var unlinkFaults: nat

    constructor (files: Files)
      ensures this.files == files && trace == [files] && faults == [] && unlinkFaults == 0
    {
      this.files := files;
      stream := Path(Config, "");
      buffer := "";
      trace := [files];
      faults, unlinkFaults := [], 0;
    }

    /** fopen for writing: the file exists and is empty from here on. */
    method Open(p: Path) returns (ok: bool)
      modifies this
      ensures unlinkFaults == old(unlinkFaults) && trace == old(trace) + [files]
      ensures faults == old(faults) + if ok then [] else [p]
      ensures ok ==> files == old(files)[p := ""] && stream == p && buffer == ""
      ensures !ok ==> files == old(files)
    {
      ok := *;
      if ok {
        files, stream, buffer := files[p := ""], p, "";
      } else {
        faults := faults + [p];
      }
      trace := trace + [files];
    }

    /** fwrite, fputs, fprintf: how much of it has reached the card is anyone's guess; checked says whether the
        caller looks at the count. */
    method Write(data: string, checked: bool) returns (complete: bool)
      modifies this
      ensures faults == old(faults) + if complete || !checked then [] else [stream]
      ensures unlinkFaults == old(unlinkFaults) && stream == old(stream)
      ensures trace == old(trace) + [files] && buffer == old(buffer) + data
      ensures stream in files && files == old(files)[stream := files[stream]]
    {
      complete := *;
      var reached: string := *;
      files := files[stream := reached];
      buffer := buffer + data;
      if !complete && checked {
        faults := faults + [stream];
      }
      trace := trace + [files];
    }

    /** flushAndClose: success means that everything written is on the card. */
    method FlushAndClose() returns (ok: bool)
      modifies this
      ensures unlinkFaults == old(unlinkFaults) && stream == old(stream)
      ensures trace == old(trace) + [files]
      ensures stream in files && files == old(files)[stream := files[stream]]
      ensures ok ==> files[stream] == old(buffer)
      ensures faults == old(faults) + if ok then [] else [stream]
    {
      ok := *;
      var reached: string := *;
      files := files[stream := if ok then buffer else reached];
      if !ok {
        faults := faults + [stream];
      }
      trace := trace + [files];
    }

    method Rename(from: Path, to: Path) returns (ok: bool)
      requires from != to
      modifies this
      ensures unlinkFaults == old(unlinkFaults) && trace == old(trace) + [files]
      ensures faults == old(faults) + if ok then [] else [from]
      ensures ok ==> from in old(files) && files == old(files)[to := old(files)[from]] - {from}
      ensures !ok ==> files == old(files)
    {
      ok := *;
      if from !in files {
        ok := false;
      }
      if ok {
        files := files[to := files[from]] - {from};
      } else {
        faults := faults + [from];
      }
      trace := trace + [files];
    }

    /** unlink: gone says that it succeeded or reported ENOENT. */
    method Unlink(p: Path) returns (gone: bool)
      modifies this
      ensures trace == old(trace) + [files] && faults == old(faults)
      ensures unlinkFaults == old(unlinkFaults) + if gone then 0 else 1
      ensures files == if gone then old(files) - {p} else old(files)
    {
      gone := *;
      if p !in files {
        gone := true;
      }
      if gone {
        files := files - {p};
      } else {
        unlinkFaults := unlinkFaults + 1;
      }
      trace := trace + [files];
    }

    /** atomicReplace */
    method AtomicReplace(temporary: Path, final: Path) returns (ok: bool)
      requires IsTemporary(temporary) && !IsTemporary(final)
      modifies this
      ensures old(trace) <= trace && old(unlinkFaults) <= unlinkFaults
      ensures ok ==> temporary in old(files) && files == old(files)[final := old(files)[temporary]] - {temporary}
      ensures !ok ==> SameExcept(files, old(files), {})
      ensures !ok && unlinkFaults == old(unlinkFaults) ==> files == old(files) - {temporary}
      ensures faults == old(faults) + if ok then [] else [temporary]
      ensures EachShows(trace, old(|trace|), old(files), files)
    {
      ok := Rename(temporary, final);
      if !ok {
        var _ := Unlink(temporary);
      }
    }

    /** Opens the temporary and writes it out; checked says whether the caller looks at fwrite's count.
        None of this shows in the completed files. */
    method WriteTemporary(temporary: Path, data: string, checked: bool) returns (isOpen: bool, ok: bool)
      requires IsTemporary(temporary)
      modifies this
      ensures old(trace) <= trace && unlinkFaults == old(unlinkFaults)
      ensures isOpen || !ok
      ensures isOpen ==> temporary in files && files == old(files)[temporary := files[temporary]]
      ensures !isOpen ==> files == old(files)
      ensures ok ==> files[temporary] == data
      ensures faults == old(faults) + if ok then [] else [temporary]
      ensures EachWithin(trace, old(|trace|), old(files), {})
    {
      isOpen := Open(temporary);
      if !isOpen {
        return isOpen, false;
      }
      ok := Write(data, checked);
      if ok || !checked {
        ok := FlushAndClose();
      }
    }

    /** One file transaction: temporary, write, flush, rename. At every step the completed files are
        those from before it or, once it has succeeded, those with the new contents in place. */
    method WriteFile(final: Path, data: string, checked: bool) returns (ok: bool)
      requires !IsTemporary(final)
      modifies this
      ensures old(trace) <= trace && old(unlinkFaults) <= unlinkFaults
      ensures ok ==> final in files && files[final] == data && SameExcept(files, old(files), {final})
      ensures !ok ==> SameExcept(files, old(files), {})
      ensures !ok && unlinkFaults == old(unlinkFaults) ==> files.Keys <= old(files).Keys
      ensures faults == old(faults) + if ok then [] else [Temporary(final)]
      ensures ok ==> files.Keys <= old(files).Keys + {final}
      ensures EachShows(trace, old(|trace|), old(files), files)
      ensures EachWithin(trace, old(|trace|), old(files), {final})
    {
      var temporary := Temporary(final);
      var isOpen;
      isOpen, ok := WriteTemporary(temporary, data, checked);
      if !isOpen {
        return false;
      }
      if ok {
        ok := AtomicReplace(temporary, final);
      }
      if !ok {
        var _ := Unlink(temporary);
      }
    }
  }
}
