/** The cluster admin tool: which machines it reaches, in what order it
  * sets them up, how it names local containers and how it reads the
  * environment variables passed to the containers. Docker and SSH calls
  * are inputs: a connection outcome per address and a lookup outcome per
  * container. */
module Admin {
  import opened Wrappers
  import ProtoUtils
  import Configurations

  const SLOG_CONTAINER_NAME: string := "slog"
  const CONTAINER_DATA_DIR: string := "/var/tmp"
  const CONTAINER_SLOG_CONFIG_FILE_PATH: string := "/var/tmp/slog.conf"
  /** The hosts of 172.28.5.0/24: .1 to .254. */
  const LOCAL_HOSTS: nat := 254

  // ---------------------------------------------------------------------
  // Environment variables
  // ---------------------------------------------------------------------

  /** The position of the first `c` in `s`. */
  function IndexOf(s: string, c: char): (i: nat)
    requires c in s
    ensures i < |s| && s[i] == c && c !in s[..i]
  {
    if s[0] == c then 0
    else
      var i := 1 + IndexOf(s[1..], c);
      assert s[..i] == [s[0]] + s[1..][..i - 1];
      i
  }

  /** str.split(c): the pieces between the occurrences of `c`. */
  function Split(s: string, c: char): (parts: seq<string>)
    ensures |parts| >= 1
    ensures |parts| >= 2 <==> c in s
    decreases |s|
  {
    if c !in s then [s]
    else
      var i := IndexOf(s, c);
      [s[..i]] + Split(s[i + 1..], c)
  }

  /** The pieces joined back with `c` in between. */
  function Join(parts: seq<string>, c: char): string
    requires |parts| >= 1
  {
    if |parts| == 1 then parts[0] else parts[0] + [c] + Join(parts[1..], c)
  }

  predicate NoneContains(parts: seq<string>, c: char)
  {
    forall i :: 0 <= i < |parts| ==> c !in parts[i]
  }

  /** Splitting loses nothing: the pieces hold no `c` and join back to the
    * string. */
  lemma {:induction false} SplitJoin(s: string, c: char)
    ensures NoneContains(Split(s, c), c)
    ensures Join(Split(s, c), c) == s
    decreases |s|
  {
    if c in s {
      var i := IndexOf(s, c);
      SplitJoin(s[i + 1..], c);
      assert Split(s, c)[1..] == Split(s[i + 1..], c);
      assert s == s[..i] + [c] + s[i + 1..];
    }
  }

  /** Pieces without `c` split back out of their join. */
  lemma {:induction false} JoinSplit(parts: seq<string>, c: char)
    requires |parts| >= 1 && NoneContains(parts, c)
    ensures Split(Join(parts, c), c) == parts
    decreases |parts|
  {
    if |parts| > 1 {
      SplitAfter(parts[0], c, Join(parts[1..], c));
      JoinSplit(parts[1..], c);
    }
  }

  lemma FirstOccurrence(s: string, c: char, i: nat)
    requires i < |s| && s[i] == c && c !in s[..i]
    ensures IndexOf(s, c) == i
  {
    var j := IndexOf(s, c);
    assert forall x :: 0 <= x < j ==> s[..j][x] == s[x];
    assert forall x :: 0 <= x < i ==> s[..i][x] == s[x];
  }

  /** An item of the -e list holds no '=' (env[1] does not exist). */
  datatype EnvError = MissingEquals(item: string)

  function EnvName(item: string): string { Split(item, '=')[0] }

  function EnvValue(item: string): string
    requires '=' in item
  {
    Split(item, '=')[1]
  }

  /** The variables of the items, a later item overriding an earlier one
    * with the same name; the first item without '=' is an error. */
  function EnvPairs(items: seq<string>): Result<map<string, string>, EnvError>
    decreases |items|
  {
    if items == [] then Ok(map[])
    else if '=' !in items[0] then Err(MissingEquals(items[0]))
    else
      match EnvPairs(items[1..])
      case Err(e) => Err(e)
      case Ok(rest) => Ok(map[EnvName(items[0]) := EnvValue(items[0])] + rest)
  }

  /** parse_envs: no list gives no variables. */
  function ParseEnvs(envs: Option<seq<string>>): (r: Result<map<string, string>, EnvError>)
    ensures envs.None? ==> r == Ok(map[])
    ensures envs.Some? ==> r == EnvPairs(envs.value)
  {
    match envs
    case None => Ok(map[])
    case Some(items) => EnvPairs(items)
  }

  /** Parsing fails exactly when some item holds no '=', and then names
    * the first such item. */
  lemma {:induction false} EnvPairsError(items: seq<string>)
    ensures EnvPairs(items).Err? <==> exists i :: 0 <= i < |items| && '=' !in items[i]
    ensures EnvPairs(items).Err? ==>
              exists i :: 0 <= i < |items| && '=' !in items[i] && EnvPairs(items).error == MissingEquals(items[i])
                          && forall j :: 0 <= j < i ==> '=' in items[j]
    decreases |items|
  {
    if items != [] && '=' in items[0] {
      EnvPairsError(items[1..]);
      if EnvPairs(items[1..]).Err? {
        var i :| 0 <= i < |items[1..]| && '=' !in items[1..][i] && EnvPairs(items[1..]).error == MissingEquals(items[1..][i])
                 && forall j :: 0 <= j < i ==> '=' in items[1..][j];
        assert '=' !in items[i + 1];
      } else {
        forall i | 0 <= i < |items| ensures '=' in items[i] {
          if i > 0 {
            assert items[i] == items[1..][i - 1];
          }
        }
      }
    }
  }

  /** On success a name is defined exactly when some item names it, and
    * its value is that of the last such item. */
  lemma {:induction false} EnvPairsLastWins(items: seq<string>, name: string)
    requires EnvPairs(items).Ok?
    ensures name in EnvPairs(items).value <==> exists i :: 0 <= i < |items| && EnvName(items[i]) == name
    ensures name in EnvPairs(items).value ==>
              exists i :: 0 <= i < |items| && EnvName(items[i]) == name && '=' in items[i]
                          && EnvPairs(items).value[name] == EnvValue(items[i])
                          && forall j :: i < j < |items| ==> EnvName(items[j]) != name
    decreases |items|
  {
    if items != [] {
      var rest := EnvPairs(items[1..]).value;
      EnvPairsLastWins(items[1..], name);
      if name in rest {
        var i :| 0 <= i < |items[1..]| && EnvName(items[1..][i]) == name && '=' in items[1..][i]
                 && rest[name] == EnvValue(items[1..][i])
                 && forall j :: i < j < |items[1..]| ==> EnvName(items[1..][j]) != name;
        assert items[i + 1] == items[1..][i];
        forall j | i + 1 < j < |items| ensures EnvName(items[j]) != name {
          assert items[j] == items[1..][j - 1];
        }
      } else {
        forall j | 0 < j < |items| ensures EnvName(items[j]) != name {
          assert items[j] == items[1..][j - 1];
        }
      }
    }
  }

  /** Splitting a string that starts with a piece without `c` and then `c`. */
  lemma SplitAfter(piece: string, c: char, rest: string)
    requires c !in piece
    ensures Split(piece + [c] + rest, c) == [piece] + Split(rest, c)
  {
    var s := piece + [c] + rest;
    assert s[..|piece|] == piece;
    FirstOccurrence(s, c, |piece|);
    assert s[|piece| + 1..] == rest;
  }

  /** "K=V=W" sets K to V: the text after the second '=' is dropped. */
  lemma SecondEqualsDropped(k: string, v: string, w: string)
    requires '=' !in k && '=' !in v
    ensures EnvPairs([k + "=" + v + "=" + w]) == Ok(map[k := v])
  {
    var tail := v + ['='] + w;
    var item := k + ['='] + tail;
    assert k + "=" + v + "=" + w == item;
    SplitAfter(v, '=', w);
    SplitAfter(k, '=', tail);
    assert Split(item, '=') == [k, v] + Split(w, '=');
    assert EnvName(item) == k && EnvValue(item) == v;
    assert [item][1..] == [] && EnvPairs([]) == Ok(map[]);
    assert map[k := v] + map[] == map[k := v];
  }

  // ---------------------------------------------------------------------
  // Docker clients
  // ---------------------------------------------------------------------

  /** A Docker client over SSH to user@addr. */
  datatype DockerClient = DockerClient(user: string, addr: string)

  /** One configured machine: its client (none when connecting failed) and
    * its address. */
  datatype Entry = Entry(client: Option<DockerClient>, addr: string)

  /** The outcome of looking a container up. */
  datatype ContainerLookup = Found(status: string) | NotFound | LookupFailed

  /** The status reported for a container. */
  function ContainerStatus(client: Option<DockerClient>, lookup: ContainerLookup): (s: string)
    ensures client.None? ==> s == "network unavailable"
    ensures client.Some? && lookup.Found? ==> s == lookup.status
    ensures client.Some? && lookup.NotFound? ==> s == "container not started"
    ensures client.Some? && lookup.LookupFailed? ==> s == "unknown"
  {
    if client.None? then "network unavailable"
    else match lookup
      case Found(status) => status
      case NotFound => "container not started"
      case LookupFailed => "unknown"
  }

  /** The entries of one replica's addresses. */
  function Row(addrs: seq<string>, user: string, connects: string -> bool): (row: seq<Entry>)
    ensures |row| == |addrs|
    ensures forall p :: 0 <= p < |addrs| ==>
              row[p] == Entry(if connects(addrs[p]) then Some(DockerClient(user, addrs[p])) else None, addrs[p])
  {
    seq(|addrs|, p requires 0 <= p < |addrs| =>
      Entry(if connects(addrs[p]) then Some(DockerClient(user, addrs[p])) else None, addrs[p]))
  }

  /** The clients of the entries that have one, in order. */
  function RowClients(row: seq<Entry>): seq<(DockerClient, string)>
  {
    if row == [] then []
    else
      var last := row[|row| - 1];
      RowClients(row[..|row| - 1]) + if last.client.Some? then [(last.client.value, last.addr)] else []
  }

  /** The clients of the whole table, replica by replica. */
  function Available(table: seq<seq<Entry>>): seq<(DockerClient, string)>
  {
    if table == [] then [] else Available(table[..|table| - 1]) + RowClients(table[|table| - 1])
  }

  /** A pair is listed in a row exactly when some entry has that client. */
  lemma {:induction false} RowClientsMembers(row: seq<Entry>, c: DockerClient, addr: string)
    ensures (c, addr) in RowClients(row) <==> exists p :: 0 <= p < |row| && row[p] == Entry(Some(c), addr)
  {
    if row != [] {
      var init := row[..|row| - 1];
      RowClientsMembers(init, c, addr);
      if exists p :: 0 <= p < |row| && row[p] == Entry(Some(c), addr) {
        var p :| 0 <= p < |row| && row[p] == Entry(Some(c), addr);
        if p < |init| {
          assert init[p] == row[p];
        }
      }
    }
  }

  /** clients() lists exactly the entries that have a client. */
  lemma {:induction false} AvailableMembers(table: seq<seq<Entry>>, c: DockerClient, addr: string)
    ensures (c, addr) in Available(table) <==>
              exists r, p :: 0 <= r < |table| && 0 <= p < |table[r]| && table[r][p] == Entry(Some(c), addr)
  {
    if table != [] {
      var init := table[..|table| - 1];
      AvailableMembers(init, c, addr);
      RowClientsMembers(table[|table| - 1], c, addr);
      if exists r, p :: 0 <= r < |table| && 0 <= p < |table[r]| && table[r][p] == Entry(Some(c), addr) {
        var r, p :| 0 <= r < |table| && 0 <= p < |table[r]| && table[r][p] == Entry(Some(c), addr);
        if r < |init| {
          assert init[r] == table[r];
        }
      }
      if exists r, p :: 0 <= r < |init| && 0 <= p < |init[r]| && init[r][p] == Entry(Some(c), addr) {
        var r, p :| 0 <= r < |init| && 0 <= p < |init[r]| && init[r][p] == Entry(Some(c), addr);
        assert table[r] == init[r];
      }
    }
  }

  /** The commands that run on every configured machine. */
  class Command {
    var replicas: seq<seq<string>>
    /** Per replica, the entry of each of its addresses. */
    var repToClients: seq<seq<Entry>>
    var numClients: nat

    /** numClients counts the table's clients. */
    predicate Valid()
      reads this`repToClients, this`numClients
    {
      numClients == |Available(repToClients)|
    }

    constructor (replicas: seq<seq<string>>)
      ensures this.replicas == replicas && repToClients == [] && numClients == 0
      ensures Valid()
    {
      this.replicas := replicas;
      repToClients := [];
      numClients := 0;
    }

    /** init_clients connects to every configured address, in replica and
      * then partition order; `connects` says which connections succeed. */
    method InitClients(user: string, connects: string -> bool)
      modifies this`repToClients, this`numClients
      ensures |repToClients| == |replicas|
      ensures forall r :: 0 <= r < |replicas| ==> repToClients[r] == Row(replicas[r], user, connects)
      ensures Valid()
    {
      repToClients := [];
      numClients := 0;
      for r := 0 to |replicas|
        invariant |repToClients| == r
        invariant forall q :: 0 <= q < r ==> repToClients[q] == Row(replicas[q], user, connects)
        invariant Valid()
      {
        var repClients := ConnectRow(replicas[r], user, connects);
        numClients := numClients + |RowClients(repClients)|;
        assert repToClients + [repClients] == (repToClients + [repClients])[..r + 1];
        assert (repToClients + [repClients])[..r] == repToClients;
        repToClients := repToClients + [repClients];
      }
    }

    /** The entries of one replica. */
    method ConnectRow(addrs: seq<string>, user: string, connects: string -> bool) returns (row: seq<Entry>)
      ensures row == Row(addrs, user, connects)
    {
      row := [];
      for p := 0 to |addrs|
        invariant row == Row(addrs[..p], user, connects)
      {
        var client := if connects(addrs[p]) then Some(DockerClient(user, addrs[p])) else None;
        row := row + [Entry(client, addrs[p])];
        assert addrs[..p + 1][..p] == addrs[..p];
      }
      assert addrs[..|addrs|] == addrs;
    }

    /** clients(): the entries with a client, replica-major. */
    method Clients() returns (cs: seq<(DockerClient, string)>)
      ensures cs == Available(repToClients)
    {
      cs := [];
      for r := 0 to |repToClients|
        invariant cs == Available(repToClients[..r])
      {
        ghost var before := cs;
        var row := repToClients[r];
        for p := 0 to |row|
          invariant cs == before + RowClients(row[..p])
        {
          if row[p].client.Some? {
            cs := cs + [(row[p].client.value, row[p].addr)];
          }
          assert row[..p + 1][..p] == row[..p];
        }
        assert row[..|row|] == row;
        assert repToClients[..r + 1][..r] == repToClients[..r];
      }
      assert repToClients[..|repToClients|] == repToClients;
    }

    /** pull_slog_image: the addresses an image is pulled on; none when
      * there is no client or pulling is switched off. */
    method PullSlogImage(noPull: bool) returns (pulled: seq<string>)
      requires Valid()
      ensures numClients == 0 || noPull ==> pulled == []
      ensures !(numClients == 0 || noPull) ==> |pulled| == numClients
      ensures !(numClients == 0 || noPull) ==>
                forall i :: 0 <= i < |pulled| ==> pulled[i] == Available(repToClients)[i].1
    {
      if numClients == 0 || noPull {
        return [];
      }
      var cs := Clients();
      pulled := seq(|cs|, i requires 0 <= i < |cs| => cs[i].1);
    }

    /** The start command: every machine's old container is cleaned up
      * (a failure, or a missing client, is ignored), then a server is run on
      * each machine with a client. The environment of the servers is parsed
      * when the first one runs. */
    method Start(envs: Option<seq<string>>) returns (r: Result<(), EnvError>, actions: seq<StartAction>)
      requires Valid()
      ensures numClients == 0 ==> r == Ok(()) && actions == CleanupAll(repToClients)
      ensures numClients > 0 && ParseEnvs(envs).Ok? ==>
                r == Ok(()) && actions == CleanupAll(repToClients) + RunAll(repToClients, ParseEnvs(envs).value)
      ensures numClients > 0 && ParseEnvs(envs).Err? ==>
                r == Err(ParseEnvs(envs).error) && actions == CleanupAll(repToClients)
    {
      actions := [];
      for rep := 0 to |repToClients|
        invariant actions == CleanupAll(repToClients[..rep])
      {
        ghost var before := actions;
        var clients := repToClients[rep];
        for part := 0 to |clients|
          invariant actions == before + CleanupRow(clients[..part])
        {
          actions := actions + [Cleanup(clients[part].client, clients[part].addr)];
          assert clients[..part + 1][..part] == clients[..part];
        }
        assert clients[..|clients|] == clients;
        assert repToClients[..rep + 1][..rep] == repToClients[..rep];
      }
      assert repToClients[..|repToClients|] == repToClients;
      if numClients == 0 {
        r := Ok(());
        return;
      }
      var env := ParseEnvs(envs);
      if env.Err? {
        return Err(env.error), actions;
      }
      var runs := RunTable(env.value);
      actions := actions + runs;
      r := Ok(());
    }

    /** The servers started on the machines with a client. */
    method RunTable(env: map<string, string>) returns (runs: seq<StartAction>)
      ensures runs == RunAll(repToClients, env)
    {
      runs := [];
      for rep := 0 to |repToClients|
        invariant runs == RunAll(repToClients[..rep], env)
      {
        ghost var before := runs;
        var clients := repToClients[rep];
        for part := 0 to |clients|
          invariant runs == before + RunRow(clients[..part], rep, env)
        {
          if clients[part].client.Some? {
            runs := runs + [Run(clients[part].client.value, clients[part].addr, rep, part,
                                ServerCommand(clients[part].addr, rep, part), env)];
          }
          assert clients[..part + 1][..part] == clients[..part];
        }
        assert clients[..|clients|] == clients;
        assert repToClients[..rep + 1][..rep] == repToClients[..rep];
      }
      assert repToClients[..|repToClients|] == repToClients;
    }
  }

  /** What the start command does on a machine. */
  datatype StartAction =
    | Cleanup(client: Option<DockerClient>, addr: string)
    | Run(host: DockerClient, addr: string, replica: nat, partition: nat, command: string,
          environment: map<string, string>)

  /** The server command line for a machine. */
  function ServerCommand(addr: string, replica: nat, partition: nat): string
  {
    "slog --config " + CONTAINER_SLOG_CONFIG_FILE_PATH + " --address " + addr
    + " --replica " + ProtoUtils.NatToString(replica) + " --partition " + ProtoUtils.NatToString(partition)
    + " --data-dir " + CONTAINER_DATA_DIR + " "
  }

  function CleanupRow(row: seq<Entry>): seq<StartAction>
  {
    if row == [] then [] else CleanupRow(row[..|row| - 1]) + [Cleanup(row[|row| - 1].client, row[|row| - 1].addr)]
  }

  function CleanupAll(table: seq<seq<Entry>>): seq<StartAction>
  {
    if table == [] then [] else CleanupAll(table[..|table| - 1]) + CleanupRow(table[|table| - 1])
  }

  function RunRow(row: seq<Entry>, rep: nat, env: map<string, string>): seq<StartAction>
  {
    if row == [] then []
    else
      var p := |row| - 1;
      RunRow(row[..p], rep, env)
      + if row[p].client.Some? then [Run(row[p].client.value, row[p].addr, rep, p, ServerCommand(row[p].addr, rep, p), env)]
        else []
  }

  function RunAll(table: seq<seq<Entry>>, env: map<string, string>): seq<StartAction>
  {
    if table == [] then [] else RunAll(table[..|table| - 1], env) + RunRow(table[|table| - 1], |table| - 1, env)
  }

  /** Cleanups are all cleanups, one per entry. */
  lemma {:induction false} CleanupAllShape(table: seq<seq<Entry>>)
    ensures forall i :: 0 <= i < |CleanupAll(table)| ==> CleanupAll(table)[i].Cleanup?
  {
    if table != [] {
      CleanupAllShape(table[..|table| - 1]);
      CleanupRowShape(table[|table| - 1]);
    }
  }

  lemma {:induction false} CleanupRowShape(row: seq<Entry>)
    ensures |CleanupRow(row)| == |row|
    ensures forall i :: 0 <= i < |row| ==> CleanupRow(row)[i] == Cleanup(row[i].client, row[i].addr)
  {
    if row != [] {
      CleanupRowShape(row[..|row| - 1]);
    }
  }

  /** The runs match clients() one to one: the same machines in the same
    * order, each run on its own replica and partition. */
  lemma {:induction false} RunRowMatchesClients(row: seq<Entry>, rep: nat, env: map<string, string>)
    ensures |RunRow(row, rep, env)| == |RowClients(row)|
    ensures forall i :: 0 <= i < |RowClients(row)| ==>
              RunRow(row, rep, env)[i].Run?
              && (RunRow(row, rep, env)[i].host, RunRow(row, rep, env)[i].addr) == RowClients(row)[i]
              && RunRow(row, rep, env)[i].replica == rep
              && RunRow(row, rep, env)[i].partition < |row|
              && row[RunRow(row, rep, env)[i].partition].client == Some(RunRow(row, rep, env)[i].host)
  {
    if row != [] {
      RunRowMatchesClients(row[..|row| - 1], rep, env);
    }
  }

  lemma {:induction false} RunAllMatchesClients(table: seq<seq<Entry>>, env: map<string, string>)
    ensures |RunAll(table, env)| == |Available(table)|
    ensures forall i :: 0 <= i < |Available(table)| ==>
              RunAll(table, env)[i].Run?
              && (RunAll(table, env)[i].host, RunAll(table, env)[i].addr) == Available(table)[i]
              && RunAll(table, env)[i].replica < |table|
  {
    if table != [] {
      RunAllMatchesClients(table[..|table| - 1], env);
      RunRowMatchesClients(table[|table| - 1], |table| - 1, env);
    }
  }

  /** In a start, every cleanup comes before every run; and the runs are
    * exactly clients(). */
  lemma StartOrder(table: seq<seq<Entry>>, env: map<string, string>, i: nat, j: nat)
    requires i < j < |CleanupAll(table) + RunAll(table, env)|
    requires (CleanupAll(table) + RunAll(table, env))[j].Cleanup?
    ensures (CleanupAll(table) + RunAll(table, env))[i].Cleanup?
  {
    CleanupAllShape(table);
    RunAllMatchesClients(table, env);
  }

  // ---------------------------------------------------------------------
  // Logs
  // ---------------------------------------------------------------------

  datatype LogsError = IndexOutOfRange

  /** Python indexing: a negative index counts from the end. */
  function PyIndex<T>(s: seq<T>, i: int): (r: Option<T>)
    ensures r.Some? <==> -|s| <= i < |s|
    ensures 0 <= i < |s| ==> r == Some(s[i])
    ensures -|s| <= i < 0 ==> r == Some(s[|s| + i])
  {
    if 0 <= i < |s| then Some(s[i]) else if -|s| <= i < 0 then Some(s[|s| + i]) else None
  }

  /** The logs command, which talks to one machine. */
  class LogsCommand {
    const replicas: seq<seq<string>>
    var client: Option<DockerClient>
    var addr: Option<string>

    constructor (replicas: seq<seq<string>>)
      ensures this.replicas == replicas && client == None && addr == None
    {
      this.replicas := replicas;
      client := None;
      addr := None;
    }

    /** An address given with -a must be listed in some replica (else no
      * client); otherwise -rp picks the address by Python indexing, an
      * index out of range being an error. */
    method InitClients(a: Option<string>, rp: (int, int), user: string, connects: string -> bool)
      returns (r: Result<(), LogsError>)
      modifies this`client, this`addr
      ensures a.Some? ==> r.Ok?
      ensures a.Some? && (exists i :: 0 <= i < |replicas| && a.value in replicas[i]) ==>
                addr == a && (client.Some? <==> connects(a.value))
      ensures a.Some? && !(exists i :: 0 <= i < |replicas| && a.value in replicas[i]) ==>
                addr == None && client == None
      ensures a.None? ==>
                (r.Ok? <==> PyIndex(replicas, rp.0).Some? && PyIndex(PyIndex(replicas, rp.0).value, rp.1).Some?)
      ensures a.None? && r.Ok? ==>
                addr == PyIndex(PyIndex(replicas, rp.0).value, rp.1) && (client.Some? <==> connects(addr.value))
      ensures client.Some? ==> addr.Some? && client.value == DockerClient(user, addr.value)
    {
      client := None;
      addr := None;
      if a.Some? {
        var listed := false;
        for i := 0 to |replicas|
          invariant listed <==> exists j :: 0 <= j < i && a.value in replicas[j]
        {
          if a.value in replicas[i] {
            listed := true;
          }
        }
        if !listed {
          return Ok(());
        }
        addr := a;
      } else {
        var rep := PyIndex(replicas, rp.0);
        if rep.None? {
          return Err(IndexOutOfRange);
        }
        var picked := PyIndex(rep.value, rp.1);
        if picked.None? {
          return Err(IndexOutOfRange);
        }
        addr := picked;
      }
      if connects(addr.value) {
        client := Some(DockerClient(user, addr.value));
      }
      r := Ok(());
    }
  }

  // ---------------------------------------------------------------------
  // Local clusters
  // ---------------------------------------------------------------------

  /** The i-th host of 172.28.5.0/24 (from 0). */
  function HostAddress(i: nat): string
  {
    "172.28.5." + ProtoUtils.NatToString(i + 1)
  }

  /** Different hosts have different addresses. */
  lemma HostAddressInjective(i: nat, j: nat)
    requires HostAddress(i) == HostAddress(j)
    ensures i == j
  {
    var prefix := "172.28.5.";
    assert HostAddress(i)[|prefix|..] == ProtoUtils.NatToString(i + 1);
    assert HostAddress(j)[|prefix|..] == ProtoUtils.NatToString(j + 1);
    ProtoUtils.DigitsValueOfNatToString(i + 1);
    ProtoUtils.DigitsValueOfNatToString(j + 1);
  }

  /** The host iterator has run out. */
  datatype LocalError = HostsExhausted

  /** Row q of `replicas` holds hosts q * numPartitions onwards. */
  predicate LaidOut(replicas: seq<seq<string>>, numPartitions: nat)
  {
    forall q :: 0 <= q < |replicas| ==> RowLaidOut(replicas[q], q * numPartitions, numPartitions)
  }

  predicate RowLaidOut(row: seq<string>, first: nat, numPartitions: nat)
  {
    |row| == numPartitions && forall p :: 0 <= p < numPartitions ==> row[p] == HostAddress(first + p)
  }

  /** A local cluster's addresses: every replica gets numPartitions hosts,
    * handed out in replica and then partition order. */
  method LocalAddresses(numReplicas: nat, numPartitions: nat) returns (r: Result<seq<seq<string>>, LocalError>)
    ensures r.Ok? <==> numReplicas * numPartitions <= LOCAL_HOSTS
    ensures r.Ok? ==> |r.value| == numReplicas && LaidOut(r.value, numPartitions)
  {
    var replicas: seq<seq<string>> := [];
    var next := 0;
    for rep := 0 to numReplicas
      invariant next == rep * numPartitions <= LOCAL_HOSTS
      invariant |replicas| == rep
      invariant LaidOut(replicas, numPartitions)
    {
      var addresses := HostRow(next, numPartitions);
      assert (rep + 1) * numPartitions == next + numPartitions;
      if addresses.Err? {
        MoreSlots(numReplicas, numPartitions, rep);
        return Err(HostsExhausted);
      }
      assert RowLaidOut(addresses.value, rep * numPartitions, numPartitions);
      replicas := replicas + [addresses.value];
      next := next + numPartitions;
    }
    r := Ok(replicas);
  }

  /** The next `count` hosts from host `first` on. */
  method HostRow(first: nat, count: nat) returns (r: Result<seq<string>, LocalError>)
    requires first <= LOCAL_HOSTS
    ensures r.Ok? <==> first + count <= LOCAL_HOSTS
    ensures r.Ok? ==> RowLaidOut(r.value, first, count)
  {
    var addresses: seq<string> := [];
    var next := first;
    for p := 0 to count
      invariant next == first + p <= LOCAL_HOSTS
      invariant |addresses| == p
      invariant forall i :: 0 <= i < p ==> addresses[i] == HostAddress(first + i)
    {
      if next == LOCAL_HOSTS {
        return Err(HostsExhausted);
      }
      addresses := addresses + [HostAddress(next)];
      next := next + 1;
    }
    r := Ok(addresses);
  }

  lemma MoreSlots(numReplicas: nat, numPartitions: nat, rep: nat)
    requires rep < numReplicas
    ensures (rep + 1) * numPartitions <= numReplicas * numPartitions
  {
    MulMonotone(rep + 1, numReplicas, numPartitions);
  }

  lemma MulMonotone(a: nat, b: nat, n: nat)
    requires a <= b
    ensures a * n <= b * n
  {
    assert b * n == a * n + (b - a) * n;
  }

  /** Different slots of a local cluster get different addresses. */
  lemma LocalAddressesDistinct(numPartitions: nat, r1: nat, p1: nat, r2: nat, p2: nat)
    requires p1 < numPartitions && p2 < numPartitions
    requires HostAddress(r1 * numPartitions + p1) == HostAddress(r2 * numPartitions + p2)
    ensures r1 == r2 && p1 == p2
  {
    HostAddressInjective(r1 * numPartitions + p1, r2 * numPartitions + p2);
    if r1 < r2 {
      SlotBefore(numPartitions, r1, p1, r2, p2);
    } else if r2 < r1 {
      SlotBefore(numPartitions, r2, p2, r1, p1);
    }
  }

  /** The slots of an earlier replica come before those of a later one. */
  lemma SlotBefore(numPartitions: nat, r1: nat, p1: nat, r2: nat, p2: nat)
    requires r1 < r2 && p1 < numPartitions
    ensures r1 * numPartitions + p1 < r2 * numPartitions + p2
  {
    MulMonotone(r1 + 1, r2, numPartitions);
    assert (r1 + 1) * numPartitions == r1 * numPartitions + numPartitions;
  }

  /** The name of the local container of replica r, partition p. */
  function ContainerName(r: nat, p: nat): string
  {
    "slog_" + ProtoUtils.NatToString(r) + "_" + ProtoUtils.NatToString(p)
  }

  /** The containers of the configured slots, as start and status go
    * through them: every address of every replica. */
  function SlotNames(replicas: seq<seq<string>>): seq<string>
  {
    if replicas == [] then []
    else SlotNames(replicas[..|replicas| - 1]) + RowNames(|replicas| - 1, |replicas[|replicas| - 1]|)
  }

  /** The containers of a replica's first n partitions. */
  function RowNames(r: nat, n: nat): (names: seq<string>)
    ensures |names| == n
    ensures forall p :: 0 <= p < n ==> names[p] == ContainerName(r, p)
  {
    seq(n, p requires 0 <= p < n => ContainerName(r, p))
  }

  /** The containers of the numReplicas × numPartitions grid, as stop and
    * remove go through them. */
  function GridNames(numReplicas: nat, numPartitions: nat): seq<string>
  {
    if numReplicas == 0 then [] else GridNames(numReplicas - 1, numPartitions) + RowNames(numReplicas - 1, numPartitions)
  }

  /** The containers start (and status) name. */
  method StartNames(replicas: seq<seq<string>>) returns (names: seq<string>)
    ensures names == SlotNames(replicas)
  {
    names := [];
    for r := 0 to |replicas|
      invariant names == SlotNames(replicas[..r])
    {
      ghost var before := names;
      for p := 0 to |replicas[r]|
        invariant names == before + RowNames(r, p)
      {
        names := names + [ContainerName(r, p)];
      }
      assert replicas[..r + 1][..r] == replicas[..r];
    }
    assert replicas[..|replicas|] == replicas;
  }

  /** The containers stop (and remove) name. */
  method StopNames(numReplicas: nat, numPartitions: nat) returns (names: seq<string>)
    ensures names == GridNames(numReplicas, numPartitions)
  {
    names := [];
    for r := 0 to numReplicas
      invariant names == GridNames(r, numPartitions)
    {
      ghost var before := names;
      for p := 0 to numPartitions
        invariant names == before + RowNames(r, p)
      {
        names := names + [ContainerName(r, p)];
      }
    }
  }

  /** Once the local addresses are in place, every replica has
    * numPartitions of them, so start, status, stop and remove name the same
    * containers in the same order. */
  lemma {:induction false} LocalNamesAgree(replicas: seq<seq<string>>, numPartitions: nat)
    requires forall r :: 0 <= r < |replicas| ==> |replicas[r]| == numPartitions
    ensures SlotNames(replicas) == GridNames(|replicas|, numPartitions)
  {
    if replicas != [] {
      LocalNamesAgree(replicas[..|replicas| - 1], numPartitions);
    }
  }
}
