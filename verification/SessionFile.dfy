/** The session file: snapshot and load, and the write-then-rename that saves it. */
module SessionFile {
  import opened Bytes
  import opened SignalStore
  import opened StoreBlob

  datatype SessionFile = SessionFile(
    schemaVersion: int, environment: string, number: string, deviceId: int, aci: string, pni: string, password: string,
    profileKey: Option<seq<byte>>, masterKey: Option<seq<byte>>, storageKey: Option<seq<byte>>,
    accountEntropyPool: Option<string>, mediaRootBackupKey: Option<seq<byte>>,
    pniIdentityKeyPair: seq<byte>, signalStoreBlob: seq<byte>)

  /** Account metadata beside the live protocol store. */
  class SigsigStore {
    var file: SessionFile
    const aciStore: Store
    const pniIdentity: seq<byte>

    constructor (file: SessionFile, aciStore: Store, pniIdentity: seq<byte>)
      ensures this.file == file && this.aciStore == aciStore && this.pniIdentity == pniIdentity
    {
      this.file, this.aciStore, this.pniIdentity := file, aciStore, pniIdentity;
    }

    /** Refresh the blob from the live store; nothing else in the file changes. */
    method Snapshot(c: Codecs, o: Orders) returns (f: SessionFile)
      modifies this`file
      ensures f == file == old(file).(signalStoreBlob := ToBlob(c, aciStore.Abs().tables, o))
    {
      file := file.(signalStoreBlob := ToBlob(c, aciStore.Abs().tables, o));
      f := file;
    }
  }

  method FromFile(c: Codecs, f: SessionFile, entropy: nat) returns (s: Option<SigsigStore>)
    ensures s.Some? <==> FromBlob(c, f.signalStoreBlob).Some?
    ensures s.Some? ==> && fresh(s.value) && s.value.file == f && s.value.pniIdentity == f.pniIdentityKeyPair
                        && s.value.aciStore.Abs() == State(FromBlob(c, f.signalStoreBlob).value, entropy)
  {
    match FromBlob(c, f.signalStoreBlob)
    case None => s := None;
    case Some(t) =>
      var store := new Store(t, entropy);
      var r := new SigsigStore(f, store, f.pniIdentityKeyPair);
      s := Some(r);
  }

  /** Saving and loading: the reloaded store has every table of the live one, so each later
      operation on either gives the same result. */
  method SaveAndReload(c: Codecs, o: Orders, json: Codec<SessionFile>, live: SigsigStore) returns (again: SigsigStore)
    requires c.Lawful() && Inverts(json) && OrdersOf(o, live.aciStore.Abs().tables)
    modifies live`file
    ensures again.aciStore.Abs() == live.aciStore.Abs() == old(live.aciStore.Abs())
    ensures again.file == live.file && again.pniIdentity == live.file.pniIdentityKeyPair
    ensures live.file.(signalStoreBlob := old(live.file).signalStoreBlob) == old(live.file)
  {
    BlobRoundTrip(c, live.aciStore.Abs().tables, o);
    var f := live.Snapshot(c, o);
    var text := json.encode(f);
    var read := json.decode(text);
    var s := FromFile(c, read.value, live.aciStore.entropy);
    again := s.value;
  }

  // ------------------------------------------------------------ paths

  /** The last '.' of a name, or -1. */
  function RFind(name: string): (i: int)
    ensures -1 <= i < |name| && (i >= 0 ==> name[i] == '.')
  {
    if name == "" then -1 else if name[|name| - 1] == '.' then |name| - 1 else RFind(name[..|name| - 1])
  }

  /** pathlib's suffix: none for a leading or trailing dot. */
  function Suffix(name: string): (s: string)
    ensures |s| <= |name| && name == name[..|name| - |s|] + s
  {
    var i := RFind(name);
    if 0 < i < |name| - 1 then name[i..] else ""
  }

  function WithSuffix(name: string, suffix: string): string {
    name[..|name| - |Suffix(name)|] + suffix
  }

  /** The temporary name. */
  function TmpName(name: string): string {
    WithSuffix(name, Suffix(name) + ".tmp")
  }

  lemma TmpNameAppends(name: string)
    ensures TmpName(name) == name + ".tmp" && TmpName(name) != name
  {
    var s := Suffix(name);
    assert name[..|name| - |s|] + (s + ".tmp") == (name[..|name| - |s|] + s) + ".tmp";
    assert |TmpName(name)| == |name| + 4;
  }

  // ------------------------------------------------------------ saving

  datatype File = File(text: string, mode: nat)

  const DEFAULT_MODE := 0x1A4  // rw-r--r--
  const PRIVATE := 0x180       // rw-------

  function Concat(chunks: seq<string>): string {
    if chunks == [] then "" else Concat(chunks[..|chunks| - 1]) + chunks[|chunks| - 1]
  }

  /** One directory; trace records every state a crash could leave behind. */
  class Directory {
    var files: map<string, File>
    ghost var trace: seq<map<string, File>>

    method Set(name: string, f: File)
      modifies this
      ensures files == old(files)[name := f] && trace == old(trace) + [files]
    {
      files := files[name := f];
      trace := trace + [files];
    }

    /** Atomic replacement, as os.replace. */
    method Replace(src: string, dst: string)
      requires src in files && src != dst
      modifies this
      ensures files == old(files)[dst := old(files)[src]] - {src} && trace == old(trace) + [files]
    {
      files := files[dst := files[src]] - {src};
      trace := trace + [files];
    }

    /** write_text: truncate, then write the text in pieces. Other files are untouched throughout. */
    method WriteText(name: string, chunks: seq<string>)
      modifies this
      ensures old(trace) <= trace
      ensures forall i, n :: |old(trace)| <= i < |trace| && n != name ==> Get(trace[i], n) == Get(old(files), n)
      ensures name in files && files[name].text == Concat(chunks) && files == old(files)[name := files[name]]
    {
      Set(name, File("", if name in files then files[name].mode else DEFAULT_MODE));
      for k := 0 to |chunks|
        invariant name in files && files[name].text == Concat(chunks[..k]) && files == old(files)[name := files[name]]
        invariant old(trace) <= trace
        invariant forall i, n :: |old(trace)| <= i < |trace| && n != name ==> Get(trace[i], n) == Get(old(files), n)
      {
        assert chunks[..k + 1][..k] == chunks[..k];
        Set(name, files[name].(text := files[name].text + chunks[k]));
      }
      assert chunks[..|chunks|] == chunks;
    }

    /** The private file under a name, complete; other files are untouched throughout. */
    method WritePrivate(name: string, chunks: seq<string>)
      modifies this
      ensures old(trace) <= trace
      ensures forall i, n :: |old(trace)| <= i < |trace| && n != name ==> Get(trace[i], n) == Get(old(files), n)
      ensures files == old(files)[name := File(Concat(chunks), PRIVATE)]
    {
      WriteText(name, chunks);
      Set(name, files[name].(mode := PRIVATE));
    }

    /** The text goes to the temporary name, then its mode is restricted, then it replaces the
        target in one step. In every state along the way the target is what it was before or
        the complete new text, readable by the owner only. */
    method SaveSessionFile(name: string, chunks: seq<string>)
      modifies this
      ensures old(trace) <= trace
      ensures forall i :: |old(trace)| <= i < |trace| ==>
                || Get(trace[i], name) == Get(old(files), name)
                || Get(trace[i], name) == Some(File(Concat(chunks), 0x180))
      ensures files == old(files)[name := File(Concat(chunks), 0x180)] - {TmpName(name)}
    {
      TmpNameAppends(name);
      var tmp := TmpName(name);
      WritePrivate(tmp, chunks);
      Replace(tmp, name);
    }
  }
}
