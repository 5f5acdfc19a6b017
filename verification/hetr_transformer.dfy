/**
 * `HetrTransformer`: the registry of child transformers, their server
 * addresses and the close lifecycle (hetrtransform.py:186-251), and
 * `build_transformer`, which picks the backend a worker runs
 * (hetrtransform.py:37-55). The RPC clients and the MPI launcher are not part
 * of this model: a client is a record of its name and server address, and
 * every call made on them is appended to an event log.
 */
module HetrTransformerModel {
  import opened Wrappers
  import opened SeqUtil
  import opened Text

  /** The backend `build_transformer` makes for a worker. */
  datatype Backend = CpuBackend | GpuBackend(deviceId: int)

  /**
   * `build_transformer(name, comm)` (hetrtransform.py:37-55). `gpuImport`
   * says whether the GPU transformer can be imported, and `rank` is
   * `comm.Get_rank()`, or None when there is no communicator.
   */
  function BuildTransformer(name: string, gpuImport: bool, rank: Option<int>): (r: Result<Backend, string>)
    ensures Contains(name, "cpu") ==> r == Success(CpuBackend)
    ensures !Contains(name, "cpu") && Contains(name, "gpu") ==>
      (r.Success? <==> gpuImport && rank.Some?) && (r.Success? ==> r.value == GpuBackend(rank.value))
    ensures !Contains(name, "cpu") && !Contains(name, "gpu") ==> r == Failure("Unknown device!")
  {
    if Contains(name, "cpu") then Success(CpuBackend)
    else if Contains(name, "gpu") then
      if !gpuImport then Failure("Fatal: Unable to initialize GPU, but GPU transformer was requested.")
      else if rank.None? then Failure("AttributeError: 'NoneType' object has no attribute 'Get_rank'")
      else Success(GpuBackend(rank.value))
    else Failure("Unknown device!")
  }

  /** A name containing "cpu" is a CPU worker whatever else it contains: "cpu" is checked first. */
  lemma CpuCheckedFirst()
    ensures BuildTransformer("gpu0cpu", false, None) == Success(CpuBackend)
    ensures BuildTransformer("gpu0", true, Some(3)) == Success(GpuBackend(3))
  {
    assert "gpu0cpu"[4..] == "cpu";
    assert Contains("gpu0cpu"[4..], "cpu");
    assert "gpu" <= "gpu0";
    assert !Contains("gpu0", "cpu") by {
      assert "gpu0"[1..] == "pu0" && "pu0"[1..] == "u0";
      ContainsNeedsRoom("u0", "cpu");
      assert !("cpu" <= "pu0") by { assert "pu0"[0] != "cpu"[0]; }
      assert !Contains("pu0", "cpu");
      assert !("cpu" <= "gpu0") by { assert "gpu0"[0] != "cpu"[0]; }
    }
  }

  /** `s[k:]` in Python: empty when `s` is shorter than `k`. */
  function DropFirst(s: string, k: nat): (r: string)
    ensures |s| >= k ==> r == s[k..]
    ensures |s| < k ==> r == []
  {
    if |s| >= k then s[k..] else []
  }

  /** `int(tname[3:])`: the device index written after the three-letter device kind. */
  function DevId(tname: string): Result<int, string>
  {
    ParseInt(DropFirst(tname, 3))
  }

  /**
   * The index after the device kind is read as `int()` reads it, spaces
   * around it included: "cpu 3" is device 3 like "cpu3".
   */
  lemma DevIdIndex(kind: string, ws1: string, n: nat, ws2: string)
    requires |kind| == 3 && AllSpace(ws1) && AllSpace(ws2)
    ensures DevId(kind + ws1 + DecimalString(n) + ws2) == Success(n)
  {
    var digits := DecimalString(n);
    assert (kind + ws1 + digits + ws2)[3..] == ws1 + digits + ws2;
    ParseIntSurroundingSpace(ws1, digits, ws2);
    ParseIntDecimal(n);
  }

  /** A name `register_transformer` accepts: it mentions a device kind and ends in a device index. */
  predicate WorkerName(tname: string)
  {
    (Contains(tname, "cpu") || Contains(tname, "gpu")) && DevId(tname).Success?
  }

  /** `get_address_by_rank(dev_id, num_servers)`; the launcher's address table is not part of this model. */
  datatype ServerAddress = ServerAddress(rank: int, numServers: nat)

  /** An RPC client for one child transformer. */
  datatype Client = Client(name: string, address: Option<ServerAddress>)

  /** The calls `close` makes on the children, the launcher and the base class. */
  datatype Event = CloseTransformer(child: string) | CloseClient(child: string) | LauncherClose | BaseClose

  /**
   * The calls of one effective `close` (hetrtransform.py:221-226): every
   * child gets `close_transformer`, then every child gets `close`, then the
   * launcher and the base transformer are closed.
   */
  function CloseEvents(order: seq<string>): (ev: seq<Event>)
  {
    seq(|order|, i requires 0 <= i < |order| => CloseTransformer(order[i])) +
    seq(|order|, i requires 0 <= i < |order| => CloseClient(order[i])) +
    [LauncherClose, BaseClose]
  }

  /**
   * Every child is asked to close its transformer before any child is
   * closed, each child gets each call exactly once, and the launcher is
   * closed after all of them.
   */
  lemma CloseEventsOrdered(order: seq<string>)
    requires Distinct(order)
    ensures var ev := CloseEvents(order);
      |ev| == 2 * |order| + 2 &&
      (forall i, j :: 0 <= i < |ev| && 0 <= j < |ev| && ev[i].CloseTransformer? && ev[j].CloseClient? ==> i < j) &&
      (forall t :: t in order ==> CloseTransformer(t) in ev && CloseClient(t) in ev) &&
      (forall i, j :: 0 <= i < j < |ev| && ev[i] == ev[j] ==> false) &&
      ev[|ev| - 2] == LauncherClose && ev[|ev| - 1] == BaseClose
  {
    var ev := CloseEvents(order);
    var n := |order|;
    assert forall i :: 0 <= i < n ==> ev[i] == CloseTransformer(order[i]);
    assert forall i :: n <= i < 2 * n ==> ev[i] == CloseClient(order[i - n]);
    forall t | t in order ensures CloseTransformer(t) in ev && CloseClient(t) in ev
    {
      var i :| 0 <= i < n && order[i] == t;
      assert ev[i] == CloseTransformer(t);
      assert ev[n + i] == CloseClient(t);
    }
  }

  /**
   * The loop of `setup_child_transformers`: visiting the names in `order`,
   * each client gets the address of the server whose rank is its device index.
   */
  /** The client of `t` once it has the address of the server whose rank is its device index. */
  function Addressed(t: string, numServers: nat): Client
    requires DevId(t).Success?
  {
    Client(t, Some(ServerAddress(DevId(t).value, numServers)))
  }

  /** The clients of the first `i` names of `order` have their addresses. */
  ghost predicate AddressedUpTo(m: map<string, Client>, order: seq<string>, i: nat, numServers: nat)
    requires i <= |order|
  {
    forall j :: 0 <= j < i ==> order[j] in m && DevId(order[j]).Success? && m[order[j]] == Addressed(order[j], numServers)
  }

  /** Giving the next client its address extends the addressed prefix by one name. */
  lemma AddressedStep(m: map<string, Client>, order: seq<string>, i: nat, numServers: nat)
    requires i < |order| && AddressedUpTo(m, order, i, numServers) && DevId(order[i]).Success?
    ensures AddressedUpTo(m[order[i] := Addressed(order[i], numServers)], order, i + 1, numServers)
  {
  }

  /** Once every name of `order` is addressed, so is every client. */
  lemma AddressedAll(m: map<string, Client>, order: seq<string>, numServers: nat)
    requires forall t :: t in m ==> t in order
    requires AddressedUpTo(m, order, |order|, numServers)
    ensures forall t :: t in m ==> DevId(t).Success? && m[t] == Addressed(t, numServers)
  {
    forall t | t in m
      ensures DevId(t).Success? && m[t] == Addressed(t, numServers)
    {
      var j :| 0 <= j < |order| && order[j] == t;
    }
  }

  /**
   * The loop of `setup_child_transformers`: visiting the names in `order`,
   * each client gets the address of the server whose rank is its device index.
   */
  method WithAddresses(clients: map<string, Client>, order: seq<string>, numServers: nat)
    returns (m: map<string, Client>)
    requires forall t :: t in clients <==> t in order
    requires forall t :: t in clients ==> DevId(t).Success?
    ensures m.Keys == clients.Keys
    ensures forall t :: t in m ==> m[t] == Client(t, Some(ServerAddress(DevId(t).value, numServers)))
  {
    m := clients;
    for i := 0 to |order|
      invariant m.Keys == clients.Keys
      invariant AddressedUpTo(m, order, i, numServers)
    {
      var t := order[i];
      var devId := DevId(t);
      AddressedStep(m, order, i, numServers);
      m := m[t := Client(t, Some(ServerAddress(devId.value, numServers)))];
    }
    AddressedAll(m, order, numServers);
  }

  class HetrTransformer {
    const defaultDevice: string
    const myPid: int
    var isClosed: bool
    /** `child_transformers`, and the order its keys were inserted in (the dict's iteration order). */
    var children: map<string, Client>
    var order: seq<string>
    /** The calls made on children, launcher and base class so far. */
    var log: seq<Event>

    ghost predicate Valid()
      reads this
    {
      Distinct(order) &&
      (forall t :: t in children <==> t in order) &&
      (forall t :: t in children ==> WorkerName(t) && children[t].name == t)
    }

    /** `HetrTransformer.__init__` (hetrtransform.py:200-207); `pid` is `os.getpid()` at construction. */
    constructor (device: string, pid: int)
      ensures Valid()
      ensures defaultDevice == device && myPid == pid
      ensures !isClosed && children == map[] && order == [] && log == []
    {
      defaultDevice := device;
      myPid := pid;
      isClosed := false;
      children := map[];
      order := [];
      log := [];
    }

    /**
     * `register_transformer` (hetrtransform.py:229-238). A name already
     * registered is left as it is. A new name must mention "cpu" or "gpu"
     * and carry a device index after its first three characters; otherwise
     * `int` raises `ValueError`, or the client variable is unbound
     * (`UnboundLocalError`), and nothing is registered.
     */
    method RegisterTransformer(tname: string) returns (r: Result<(), string>)
      requires Valid()
      modifies this
      ensures Valid()
      ensures isClosed == old(isClosed) && log == old(log)
      ensures tname in old(children) ==> r.Success? && children == old(children) && order == old(order)
      ensures tname !in old(children) && WorkerName(tname) ==>
        r.Success? && children == old(children)[tname := Client(tname, None)] && order == old(order) + [tname]
      ensures tname !in old(children) && !WorkerName(tname) ==>
        r.Failure? && children == old(children) && order == old(order)
    {
      if tname !in children {
        if Contains(tname, "cpu") || Contains(tname, "gpu") {
          var devId := DevId(tname);
          if devId.Failure? {
            return Failure("ValueError: invalid literal for int()");
          }
          assert tname !in order;
          children := children[tname := Client(tname, None)];
          order := order + [tname];
        } else {
          return Failure("UnboundLocalError: trans_client");
        }
      }
      r := Success(());
    }

    /** `transformer(tname)` (hetrtransform.py:249-251): the client, which must be registered. */
    function Transformer(tname: string): (r: Result<Client, string>)
      reads this
      requires Valid()
      ensures r.Success? <==> tname in children
      ensures r.Success? ==> r.value == children[tname] && r.value.name == tname
    {
      if tname in children then Success(children[tname])
      else Failure("register transformer " + tname + " before use")
    }

    /**
     * `setup_child_transformers(num_servers)` (hetrtransform.py:240-247):
     * each registered client gets the address of the server whose rank is
     * its device index.
     */
    method SetupChildTransformers(numServers: nat)
      requires Valid()
      modifies this
      ensures Valid()
      ensures isClosed == old(isClosed) && log == old(log) && order == old(order)
      ensures children.Keys == old(children).Keys
      ensures forall t :: t in children ==>
        children[t] == Client(t, Some(ServerAddress(DevId(t).value, numServers)))
    {
      assert forall t :: t in children ==> DevId(t).Success?;
      children := WithAddresses(children, order, numServers);
    }

    /**
     * `close` (hetrtransform.py:215-227). Nothing happens once closed, nor
     * in a process other than the one that made the transformer (`pid` is
     * `os.getpid()` at the call); otherwise the children are shut down and
     * the transformer is marked closed.
     */
    method Close(pid: int)
      requires Valid()
      modifies this
      ensures Valid()
      ensures children == old(children) && order == old(order)
      ensures old(isClosed) || myPid != pid ==> isClosed == old(isClosed) && log == old(log)
      ensures !old(isClosed) && myPid == pid ==> isClosed && log == old(log) + CloseEvents(order)
    {
      if isClosed {
        return;
      }
      if myPid != pid {
        return;
      }
      var ord := order;
      ghost var start := log;
      for i := 0 to |ord|
        invariant order == ord && children == old(children) && isClosed == old(isClosed)
        invariant log == start + seq(i, k requires 0 <= k < i => CloseTransformer(ord[k]))
      {
        log := log + [CloseTransformer(ord[i])];
      }
      ghost var mid := log;
      for i := 0 to |ord|
        invariant order == ord && children == old(children) && isClosed == old(isClosed)
        invariant log == mid + seq(i, k requires 0 <= k < i => CloseClient(ord[k]))
      {
        log := log + [CloseClient(ord[i])];
      }
      log := log + [LauncherClose, BaseClose];
      isClosed := true;
    }
  }

  /** Closing twice in the owning process shuts the children down once. */
  method CloseTwice(h: HetrTransformer, pid: int)
    requires h.Valid() && !h.isClosed && h.myPid == pid
    modifies h
    ensures h.isClosed && h.log == old(h.log) + CloseEvents(h.order)
  {
    h.Close(pid);
    h.Close(pid);
  }
}
