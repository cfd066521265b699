/** The tunnel registry of tunnel.js: the module-level `tunnels` array, the
    file ./tunnels.json that persists it, and getTunnels, createConfig,
    addTunnel, saveTunnels and removeTunnel. */
module Registry {

  /** One element of the `tunnels` array: the single-key object `{ [token]: port }`. */
  datatype Entry = Entry(token: string, port: int)

  /** The contents of ./tunnels.json as far as the code tells them apart: no
      file, an empty file, or `{ "tunnels": [...] }` holding a list. */
  datatype ConfigFile = Absent | Blank | Stored(tunnels: seq<Entry>)

  /** What getTunnels returns: the stored list, or the `{}` it returns for an
      absent or empty file. */
  datatype Loaded = EmptyMarker | List(entries: seq<Entry>)

  /** getTunnels' return value together with the file as it leaves it. */
  datatype LoadOutcome = LoadOutcome(result: Loaded, after: ConfigFile)

  /** An `addTunnel` call either returns or throws an Error with a message. */
  datatype Outcome = Pass | Fail(message: string)

  const PORT_USED := "[ERROR] port already used"

  /** getTunnels: an absent file is created holding an empty list and `{}` is
      returned; an empty file also gives `{}`; otherwise the stored list is
      returned as it is. Only an absent file is written. */
  function GetTunnels(file: ConfigFile): (r: LoadOutcome)
    ensures !r.after.Absent?
    ensures file.Absent? ==> r.after == Stored([])
    ensures !file.Absent? ==> r.after == file
    ensures r.result.List? <==> file.Stored?
    ensures file.Stored? ==> r.result.entries == file.tunnels
  {
    match file
    case Absent => LoadOutcome(EmptyMarker, Stored([]))
    case Blank => LoadOutcome(EmptyMarker, Blank)
    case Stored(t) => LoadOutcome(List(t), file)
  }

  /** The list a load puts in the cache: the `{}` marker is read as no tunnels. */
  function Cached(loaded: Loaded): seq<Entry>
  {
    match loaded
    case EmptyMarker => []
    case List(t) => t
  }

  /** `tunnels.filter((tunnel) => Object.keys(tunnel) == subpath)`: the entries
      whose token is `token`, in registry order. */
  function Matching(reg: seq<Entry>, token: string): (r: seq<Entry>)
    ensures forall e :: e in r ==> e in reg && e.token == token
    ensures r == [] <==> forall e :: e in reg ==> e.token != token
  {
    if reg == [] then []
    else (if reg[0].token == token then [reg[0]] else []) + Matching(reg[1..], token)
  }

  /** `tunnels.filter((v) => Object.values(v)[0] == port)`: the entries that
      already forward to `port`. It has the shape of `Matching`, on the port
      instead of the token; the two source filters are kept apart on purpose,
      so that each states what its own call site reads. */
  function UsingPort(reg: seq<Entry>, port: int): (r: seq<Entry>)
    ensures forall e :: e in r ==> e in reg && e.port == port
    ensures r == [] <==> forall e :: e in reg ==> e.port != port
  {
    if reg == [] then []
    else (if reg[0].port == port then [reg[0]] else []) + UsingPort(reg[1..], port)
  }

  /** `tunnels.filter((v) => Object.values(v)[0] != port)`: the entries kept by
      removeTunnel. */
  function WithoutPort(reg: seq<Entry>, port: int): (r: seq<Entry>)
    ensures forall e :: e in r <==> e in reg && e.port != port
    ensures |r| <= |reg|
  {
    if reg == [] then []
    else (if reg[0].port != port then [reg[0]] else []) + WithoutPort(reg[1..], port)
  }

  /** No two entries forward to the same port: what addTunnel's check keeps. */
  predicate PortsUnique(reg: seq<Entry>)
  {
    forall i, j :: 0 <= i < j < |reg| ==> reg[i].port != reg[j].port
  }

  /** First match wins: the head of the token filter is the earliest entry
      carrying that token. */
  lemma {:induction false} FirstMatchIsEarliest(reg: seq<Entry>, token: string, i: int)
    requires 0 <= i < |reg| && reg[i].token == token
    requires forall j :: 0 <= j < i ==> reg[j].token != token
    ensures Matching(reg, token) != [] && Matching(reg, token)[0] == reg[i]
  {
    if i > 0 {
      assert reg[1..][i - 1] == reg[i];
      FirstMatchIsEarliest(reg[1..], token, i - 1);
    }
  }

  /** Removal keeps the order of the entries it keeps: filtering a
      concatenation filters each part. */
  lemma {:induction false} WithoutPortConcat(a: seq<Entry>, b: seq<Entry>, port: int)
    ensures WithoutPort(a + b, port) == WithoutPort(a, port) + WithoutPort(b, port)
  {
    if a != [] {
      var head := if a[0].port != port then [a[0]] else [];
      assert (a + b)[0] == a[0] && (a + b)[1..] == a[1..] + b;
      WithoutPortConcat(a[1..], b, port);
      assert WithoutPort(a + b, port) == head + (WithoutPort(a[1..], port) + WithoutPort(b, port));
      assert WithoutPort(a, port) == head + WithoutPort(a[1..], port);
    } else {
      assert a + b == b;
    }
  }

  /** Removal keeps every entry on another port as often as it occurs, and no
      entry on the removed port. */
  lemma {:induction false} WithoutPortCount(reg: seq<Entry>, port: int, e: Entry)
    ensures multiset(WithoutPort(reg, port))[e] == if e.port == port then 0 else multiset(reg)[e]
  {
    if reg != [] {
      assert reg == [reg[0]] + reg[1..];
      WithoutPortCount(reg[1..], port, e);
    }
  }

  /** Removing a port that no entry uses changes nothing. */
  lemma {:induction false} WithoutAbsentPort(reg: seq<Entry>, port: int)
    requires forall e :: e in reg ==> e.port != port
    ensures WithoutPort(reg, port) == reg
  {
    if reg != [] {
      assert reg[0] in reg;
      assert forall e :: e in reg[1..] ==> e in reg;
      WithoutAbsentPort(reg[1..], port);
    }
  }

  /** Removing a port twice is removing it once. */
  lemma WithoutPortIdempotent(reg: seq<Entry>, port: int)
    ensures WithoutPort(WithoutPort(reg, port), port) == WithoutPort(reg, port)
  {
    WithoutAbsentPort(WithoutPort(reg, port), port);
  }

  /** Removal keeps the ports unique. */
  lemma {:induction false} WithoutPortKeepsUnique(reg: seq<Entry>, port: int)
    requires PortsUnique(reg)
    ensures PortsUnique(WithoutPort(reg, port))
  {
    if reg != [] {
      var rest := WithoutPort(reg[1..], port);
      assert PortsUnique(reg[1..]) by {
        forall i, j | 0 <= i < j < |reg[1..]| ensures reg[1..][i].port != reg[1..][j].port {
          assert reg[1..][i] == reg[i + 1] && reg[1..][j] == reg[j + 1];
        }
      }
      WithoutPortKeepsUnique(reg[1..], port);
      if reg[0].port != port {
        var r := [reg[0]] + rest;
        forall i, j | 0 <= i < j < |r| ensures r[i].port != r[j].port {
          if i == 0 {
            assert r[j] == rest[j - 1] && r[j] in rest;
            var k :| 0 <= k < |reg[1..]| && reg[1..][k] == r[j];
            assert reg[k + 1] == r[j];
          } else {
            assert r[i] == rest[i - 1] && r[j] == rest[j - 1];
          }
        }
      }
    }
  }

  /** Appending an entry whose port no entry uses keeps the ports unique. */
  lemma AppendKeepsUnique(reg: seq<Entry>, e: Entry)
    requires PortsUnique(reg) && UsingPort(reg, e.port) == []
    ensures PortsUnique(reg + [e])
  {
    var r := reg + [e];
    forall i, j | 0 <= i < j < |r| ensures r[i].port != r[j].port {
      if j == |reg| {
        assert r[i] == reg[i] && reg[i] in reg;
      } else {
        assert r[i] == reg[i] && r[j] == reg[j];
      }
    }
  }

  /** Removing the port of a tunnel just added on a free port gives back the
      registry as it was before the add. */
  lemma RemoveUndoesAdd(reg: seq<Entry>, e: Entry)
    requires UsingPort(reg, e.port) == []
    ensures WithoutPort(reg + [e], e.port) == reg
  {
    WithoutPortConcat(reg, [e], e.port);
    WithoutAbsentPort(reg, e.port);
    assert WithoutPort([e], e.port) == [];
  }

  /** The module's registry state: the cached `tunnels` array and the file. */
  class Tunnels {
    /** The module-level `tunnels` array. */
    var tunnels: seq<Entry>
    /** The contents of ./tunnels.json. */
    var config: ConfigFile

    /** Start-up, `let tunnels = getTunnels()` on the file found on disk. */
    constructor (disk: ConfigFile)
      ensures config == GetTunnels(disk).after
      ensures tunnels == Cached(GetTunnels(disk).result)
    {
      var loaded := GetTunnels(disk);
      config := loaded.after;
      tunnels := Cached(loaded.result);
    }

    /** `tunnels = getTunnels()`, done before every routing decision. */
    method Reload()
      modifies this
      ensures config == GetTunnels(old(config)).after
      ensures tunnels == Cached(GetTunnels(old(config)).result)
    {
      var loaded := GetTunnels(config);
      config := loaded.after;
      tunnels := Cached(loaded.result);
    }

    /** createConfig: the file is (re)written holding an empty list. */
    method CreateConfig()
      modifies this`config
      ensures config == Stored([])
    {
      config := Stored([]);
    }

    /** saveTunnels: the file is overwritten with the whole cached list. */
    method SaveTunnels()
      modifies this`config
      ensures config == Stored(tunnels)
      ensures GetTunnels(config).result == List(tunnels)
    {
      config := Stored(tunnels);
    }

    /** addTunnel: with the file present, a port some entry already uses
        throws and changes nothing; with the file absent the check is skipped
        and the file is created first. Otherwise `{ [path]: port }` is appended
        and the whole list is saved. */
    method AddTunnel(path: string, port: int) returns (r: Outcome)
      modifies this
      ensures r == if !old(config).Absent? && (exists e :: e in old(tunnels) && e.port == port)
                   then Fail(PORT_USED) else Pass
      ensures r.Fail? ==> tunnels == old(tunnels) && config == old(config)
      ensures r.Pass? ==> tunnels == old(tunnels) + [Entry(path, port)]
      ensures r.Pass? ==> config == Stored(tunnels) && Cached(GetTunnels(config).result) == tunnels
      ensures !old(config).Absent? && PortsUnique(old(tunnels)) ==> PortsUnique(tunnels)
    {
      if config.Absent? {
        CreateConfig();
      } else if |UsingPort(tunnels, port)| != 0 {
        return Fail(PORT_USED);
      }
      if !old(config).Absent? && PortsUnique(tunnels) {
        AppendKeepsUnique(tunnels, Entry(path, port));
      }
      tunnels := tunnels + [Entry(path, port)];
      SaveTunnels();
      r := Pass;
    }

    /** removeTunnel: keep exactly the entries on other ports, in order, and
        save the whole list. */
    method RemoveTunnel(port: int)
      modifies this
      ensures tunnels == WithoutPort(old(tunnels), port)
      ensures forall e :: e in tunnels ==> e.port != port
      ensures config == Stored(tunnels) && Cached(GetTunnels(config).result) == tunnels
      ensures PortsUnique(old(tunnels)) ==> PortsUnique(tunnels)
    {
      if PortsUnique(tunnels) {
        WithoutPortKeepsUnique(tunnels, port);
      }
      tunnels := WithoutPort(tunnels, port);
      SaveTunnels();
    }
  }

  /** The corrected start-up: on a fresh install (no file) or with an empty
      file, the first addTunnel succeeds and saves the one new entry. */
  method FirstAddAfterEmptyStart(disk: ConfigFile, path: string, port: int) returns (r: Outcome, saved: ConfigFile)
    requires !disk.Stored?
    ensures r == Pass && saved == Stored([Entry(path, port)])
  {
    var store := new Tunnels(disk);
    r := store.AddTunnel(path, port);
    saved := store.config;
  }

  /** The outcome of addTunnel as written in JavaScript, where the cache may
      be the `{}` marker: a throw (with the file as it was left) or the new
      cache and file. */
  datatype Step = Threw(message: string, file: ConfigFile) | Wrote(cache: Loaded, file: ConfigFile)

  const FILTER_TYPE_ERROR := "tunnels.filter is not a function"
  const PUSH_TYPE_ERROR := "tunnels.push is not a function"

  /** addTunnel run on a cache that is either a list or the `{}` marker, which
      has neither `filter` nor `push`. */
  function AddAsWritten(cache: Loaded, file: ConfigFile, path: string, port: int): (r: Step)
    ensures cache.EmptyMarker? ==> r.Threw? && r.message != PORT_USED
    ensures cache.EmptyMarker? ==> r.file == (if file.Absent? then Stored([]) else file)
    ensures cache.List? ==> (r.Wrote? <==> file.Absent? || UsingPort(cache.entries, port) == [])
    ensures cache.List? && r.Wrote? ==>
              r.cache == List(cache.entries + [Entry(path, port)]) && r.file == Stored(cache.entries + [Entry(path, port)])
    ensures cache.List? && r.Threw? ==> r.message == PORT_USED && r.file == file
  {
    if file.Absent? then
      if cache.EmptyMarker? then Threw(PUSH_TYPE_ERROR, Stored([]))
      else Wrote(List(cache.entries + [Entry(path, port)]), Stored(cache.entries + [Entry(path, port)]))
    else if cache.EmptyMarker? then Threw(FILTER_TYPE_ERROR, file)
    else if UsingPort(cache.entries, port) != [] then Threw(PORT_USED, file)
    else Wrote(List(cache.entries + [Entry(path, port)]), Stored(cache.entries + [Entry(path, port)]))
  }

  /** On a fresh install or with an empty file, the JavaScript start-up caches
      `{}`, and the first add then throws a TypeError instead of adding. */
  lemma FirstAddAfterEmptyStartThrows(disk: ConfigFile, path: string, port: int)
    requires !disk.Stored?
    ensures var boot := GetTunnels(disk);
            AddAsWritten(boot.result, boot.after, path, port) == Threw(FILTER_TYPE_ERROR, boot.after)
  {
  }
}
