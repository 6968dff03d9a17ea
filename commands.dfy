/** The key/value stored-procedure interpreter
  * (module/scheduler_components/commands.cpp): the code of a transaction
  * is a whitespace-separated list of commands GET k, SET k v, DEL k,
  * COPY src dst and ABORT k, run over the transaction's read, write and
  * delete sets. */
module Commands {
  import opened Types
  import opened Wrappers
  import ProtoUtils

  datatype Op = GET | SET | DEL | COPY | ABORT

  /** The command a name denotes, if it is one of COMMAND_NUM_ARGS. */
  function OpOf(name: string): Option<Op>
  {
    if name == "GET" then Some(GET)
    else if name == "SET" then Some(SET)
    else if name == "DEL" then Some(DEL)
    else if name == "COPY" then Some(COPY)
    else if name == "ABORT" then Some(ABORT)
    else None
  }

  /** COMMAND_NUM_ARGS: the arity of each command. */
  function Arity(op: Op): nat
  {
    match op
    case GET => 1
    case SET => 2
    case DEL => 1
    case COPY => 2
    case ABORT => 1
  }


  /** The end of the run of non-space characters that starts at i. */
  function TokenEnd(s: string, i: nat): (j: nat)
    requires i <= |s|
    ensures i <= j <= |s|
    ensures j < |s| ==> ProtoUtils.IsSpace(s[j])
    ensures forall k :: i <= k < j ==> !ProtoUtils.IsSpace(s[k])
    decreases |s| - i
  {
    if i < |s| && !ProtoUtils.IsSpace(s[i]) then TokenEnd(s, i + 1) else i
  }

  /** NextToken with the delimiters " \t\n\v\f\r": the next maximal run of
    * non-space characters at or after pos and the position just after it,
    * or None (npos) when only spaces are left. */
  function NextToken(code: string, pos: nat): (r: Option<(string, nat)>)
    requires pos <= |code|
    ensures r.Some? ==> pos < r.value.1 <= |code| && r.value.0 != []
    ensures r.Some? ==> forall k :: 0 <= k < |r.value.0| ==> !ProtoUtils.IsSpace(r.value.0[k])
    ensures r.None? <==> forall k :: pos <= k < |code| ==> ProtoUtils.IsSpace(code[k])
  {
    var start := ProtoUtils.SkipSpaces(code, pos);
    if start == |code| then None
    else
      var end := TokenEnd(code, start);
      assert forall k :: 0 <= k < end - start ==> code[start..end][k] == code[start + k];
      Some((code[start..end], end))
  }

  /** NextNTokens: the next n tokens and the position after the last, or
    * None (npos) when fewer than n tokens are left. */
  function NextNTokens(code: string, n: nat, pos: nat): (r: Option<(seq<string>, nat)>)
    requires pos <= |code|
    ensures r.Some? ==> |r.value.0| == n && pos <= r.value.1 <= |code|
    decreases n
  {
    if n == 0 then Some(([], pos))
    else
      match NextToken(code, pos)
      case None => None
      case Some((t, p)) =>
        match NextNTokens(code, n - 1, p)
        case None => None
        case Some((ts, q)) => Some(([t] + ts, q))
  }

  /** Every token at or after pos, in order. */
  function Tokens(code: string, pos: nat): seq<string>
    requires pos <= |code|
    decreases |code| - pos
  {
    match NextToken(code, pos)
    case None => []
    case Some((t, p)) => [t] + Tokens(code, p)
  }

  /** Reading n tokens one by one succeeds exactly when n tokens are left,
    * and then yields the first n of them and leaves the rest. */
  lemma {:induction false} NextNTokensAreTokens(code: string, n: nat, pos: nat)
    requires pos <= |code|
    ensures NextNTokens(code, n, pos).Some? <==> n <= |Tokens(code, pos)|
    ensures NextNTokens(code, n, pos).Some? ==>
      NextNTokens(code, n, pos).value.0 == Tokens(code, pos)[..n] &&
      Tokens(code, NextNTokens(code, n, pos).value.1) == Tokens(code, pos)[n..]
    decreases n
  {
    if n > 0 {
      match NextToken(code, pos)
      case None =>
      case Some((t, p)) =>
        NextNTokensAreTokens(code, n - 1, p);
        assert Tokens(code, pos) == [t] + Tokens(code, p);
    }
  }

  /** What NextCommand finds at the front of the remaining tokens: the end
    * of the code, an error that stops parsing, or a command with as many
    * arguments as its arity. */
  datatype Next = End | Bad(message: string) | Command(name: string, op: Op, args: seq<string>, rest: seq<string>)

  function Front(tokens: seq<string>): (r: Next)
    ensures r.End? <==> tokens == []
    ensures r.Command? ==> OpOf(r.name) == Some(r.op) && Arity(r.op) == |r.args| && tokens == [r.name] + r.args + r.rest
    ensures r.Bad? ==> tokens != [] && (OpOf(tokens[0]).None? || |tokens| - 1 < Arity(OpOf(tokens[0]).value))
  {
    if tokens == [] then End
    else
      match OpOf(tokens[0])
      case None => Bad("Invalid command: " + tokens[0])
      case Some(op) =>
        var n := Arity(op);
        if |tokens| - 1 < n then Bad("Invalid number of arguments for command " + tokens[0])
        else
          assert tokens == [tokens[0]] + tokens[1..1 + n] + tokens[1 + n..];
          Command(tokens[0], op, tokens[1..1 + n], tokens[1 + n..])
  }

  /** What the front of the tokens is, in terms of the tokenizer calls
    * NextCommand makes. */
  lemma FrontIsNext(code: string, pos: nat)
    requires pos <= |code|
    ensures NextToken(code, pos).None? ==> Front(Tokens(code, pos)).End?
    ensures NextToken(code, pos).Some? && OpOf(NextToken(code, pos).value.0).None? ==>
      Front(Tokens(code, pos)) == Bad("Invalid command: " + NextToken(code, pos).value.0)
    ensures NextToken(code, pos).Some? && OpOf(NextToken(code, pos).value.0).Some? ==>
      var name := NextToken(code, pos).value.0;
      var op := OpOf(name).value;
      var a := NextNTokens(code, Arity(op), NextToken(code, pos).value.1);
      if a.None? then Front(Tokens(code, pos)) == Bad("Invalid number of arguments for command " + name)
      else Front(Tokens(code, pos)) == Command(name, op, a.value.0, Tokens(code, a.value.1))
  {
    var tokens := Tokens(code, pos);
    match NextToken(code, pos)
    case None =>
    case Some((t, p)) =>
      assert tokens == [t] + Tokens(code, p);
      if OpOf(t).Some? {
        var n := Arity(OpOf(t).value);
        NextNTokensAreTokens(code, n, p);
        if n <= |Tokens(code, p)| {
          FrontOfSplit(t, Tokens(code, p), n);
        }
      }
  }

  /** The front of a command name and the tokens after it, by the arity. */
  lemma FrontOfSplit(t: string, after: seq<string>, n: nat)
    requires OpOf(t).Some? && n == Arity(OpOf(t).value) && n <= |after|
    ensures Front([t] + after) == Command(t, OpOf(t).value, after[..n], after[n..])
  {
    assert after == after[..n] + after[n..];
    assert [t] + after == [t] + after[..n] + after[n..];
    FrontCommand(t, after[..n], after[n..]);
  }

  /** The sets a run works on, and the abort flag and reason it builds. */
  datatype KvState = KvState(readSet: map<Key, Value>, writeSet: map<Key, Value>, deleteSet: seq<Key>,
                             aborted: bool, reason: string)

  /** One command: SET and DEL touch only keys already in the write set,
    * COPY needs its source in the read set and its destination in the write
    * set, ABORT records a user abort and GET does nothing. */
  function Step(op: Op, args: seq<string>, s: KvState): KvState
    requires Arity(op) == |args|
  {
    match op
    case SET =>
      if args[0] in s.writeSet then s.(writeSet := s.writeSet[args[0] := args[1]]) else s
    case DEL =>
      if args[0] in s.writeSet then s.(deleteSet := s.deleteSet + [args[0]]) else s
    case COPY =>
      if args[0] in s.readSet && args[1] in s.writeSet then s.(writeSet := s.writeSet[args[1] := s.readSet[args[0]]]) else s
    case ABORT =>
      s.(aborted := true, reason := s.reason + "User abort (key: " + args[0] + ")")
    case GET => s
  }

  /** A command keeps the read set and the write set's keys, and appends to
    * the delete set at most one key, of the write set. */
  lemma StepFacts(op: Op, args: seq<string>, s: KvState)
    requires Arity(op) == |args|
    ensures Step(op, args, s).readSet == s.readSet
    ensures Step(op, args, s).writeSet.Keys == s.writeSet.Keys
    ensures Step(op, args, s).deleteSet == s.deleteSet ||
            (Step(op, args, s).deleteSet == s.deleteSet + [args[0]] && args[0] in s.writeSet)
    ensures s.aborted ==> Step(op, args, s).aborted
    ensures Step(op, args, s).aborted <==> s.aborted || op == ABORT
    ensures |s.reason| <= |Step(op, args, s).reason| && Step(op, args, s).reason[..|s.reason|] == s.reason
  {
  }

  /** The commands of a token list run in order; a bad command aborts and
    * stops the run. */
  function Run(tokens: seq<string>, s: KvState): KvState
    decreases |tokens|
  {
    match Front(tokens)
    case End => s
    case Bad(message) => s.(aborted := true, reason := s.reason + message)
    case Command(_, op, args, rest) => Run(rest, Step(op, args, s))
  }

  /** A run past a command goes on with the rest of the tokens. */
  lemma RunCommand(tokens: seq<string>, s: KvState)
    requires Front(tokens).Command?
    ensures Run(tokens, s) == Run(Front(tokens).rest, Step(Front(tokens).op, Front(tokens).args, s))
  {
  }

  /** A run stops at the end of the tokens and, aborting, at a bad command. */
  lemma RunStops(tokens: seq<string>, s: KvState)
    requires !Front(tokens).Command?
    ensures Run(tokens, s) == if Front(tokens).Bad? then s.(aborted := true, reason := s.reason + Front(tokens).message) else s
  {
  }

  /** A run, by what is at the front of its tokens. */
  lemma RunFront(tokens: seq<string>, s: KvState)
    ensures Front(tokens).Command? ==>
      Run(tokens, s) == Run(Front(tokens).rest, Step(Front(tokens).op, Front(tokens).args, s))
    ensures !Front(tokens).Command? ==>
      Run(tokens, s) == if Front(tokens).Bad? then s.(aborted := true, reason := s.reason + Front(tokens).message) else s
  {
    if Front(tokens).Command? {
      RunCommand(tokens, s);
    } else {
      RunStops(tokens, s);
    }
  }

  /** The state a transaction's code starts from: its own sets, not aborted. */
  function Start(txn: Transaction): KvState
  {
    KvState(txn.readSet, txn.writeSet, txn.deleteSet, false, "")
  }

  /** KeyValueCommands::Execute on a transaction: the write and delete sets
    * after the run, ABORTED with the run's reason if it aborted, otherwise
    * COMMITTED. */
  function Executed(txn: Transaction): (r: Transaction)
    ensures r.status == ABORTED || r.status == COMMITTED
  {
    var s := Run(Tokens(ProtoUtils.CodeOf(txn.procedure), 0), Start(txn));
    if s.aborted then txn.(writeSet := s.writeSet, deleteSet := s.deleteSet, status := ABORTED, abortReason := s.reason)
    else txn.(writeSet := s.writeSet, deleteSet := s.deleteSet, status := COMMITTED)
  }

  /** The body of Execute's loop for one command, on the sets and the
    * abort state. */
  method ApplyCommand(op: Op, args: seq<string>, s: KvState) returns (r: KvState)
    requires Arity(op) == |args|
    ensures r == Step(op, args, s)
  {
    r := s;
    if op == SET {
      if args[0] in r.writeSet {
        r := r.(writeSet := r.writeSet[args[0] := args[1]]);
      }
    } else if op == DEL {
      if args[0] in r.writeSet {
        r := r.(deleteSet := r.deleteSet + [args[0]]);
      }
    } else if op == COPY {
      var src := args[0];
      var dst := args[1];
      if src in r.readSet && dst in r.writeSet {
        r := r.(writeSet := r.writeSet[dst := r.readSet[src]]);
      }
    } else if op == ABORT {
      r := r.(aborted := true, reason := r.reason + "User abort (key: " + args[0] + ")");
    }
  }

  datatype Position = At(index: nat) | NPos

  /** KeyValueCommands: the tokenizer cursor, the current command and its
    * arguments, and the abort flag and reason of the current run. */
  class KeyValueCommands {
    var cmd: string
    var args: seq<string>
    var pos: Position
    var aborted: bool
    var abortReason: string

    constructor()
      ensures pos == At(0) && !aborted && abortReason == "" && cmd == "" && args == []
    {
      cmd := "";
      args := [];
      pos := At(0);
      aborted := false;
      abortReason := "";
    }

    /** Reset: the cursor at the start, not aborted, no reason. */
    method Reset()
      modifies this
      ensures pos == At(0) && !aborted && abortReason == ""
      ensures cmd == old(cmd) && args == old(args)
    {
      pos := At(0);
      aborted := false;
      abortReason := "";
    }

    /** NextCommand: reads the next command and its arguments. It returns
      * false at the end of the code, and false after recording an abort
      * for an unknown command or one with too few arguments. */
    method NextCommand(code: string) returns (more: bool)
      requires pos.At? && pos.index <= |code|
      modifies this
      ensures var f := Front(Tokens(code, old(pos.index)));
        (more <==> f.Command?) &&
        (f.Command? ==> cmd == f.name && args == f.args && pos.At? && pos.index <= |code| &&
                        Tokens(code, pos.index) == f.rest)
      ensures var f := Front(Tokens(code, old(pos.index)));
        if f.Bad? then aborted && abortReason == old(abortReason) + f.message
        else aborted == old(aborted) && abortReason == old(abortReason)
    {
      FrontIsNext(code, pos.index);
      var t := NextToken(code, pos.index);
      if t.None? {
        pos := NPos;
        return false;
      }
      cmd := t.value.0;
      pos := At(t.value.1);
      var op := OpOf(cmd);
      if op.None? {
        aborted := true;
        abortReason := abortReason + "Invalid command: " + cmd;
        return false;
      }
      var a := NextNTokens(code, Arity(op.value), pos.index);
      if a.None? {
        pos := NPos;
        aborted := true;
        abortReason := abortReason + "Invalid number of arguments for command " + cmd;
        return false;
      }
      args := a.value.0;
      pos := At(a.value.1);
      return true;
    }

    /** Execute: runs the transaction's code and sets its status. */
    method Execute(txn: Transaction) returns (r: Transaction)
      modifies this
      ensures r == Executed(txn)
      ensures aborted == (r.status == ABORTED)
    {
      Reset();
      var code := ProtoUtils.CodeOf(txn.procedure);
      var readSet := txn.readSet;
      var writeSet := txn.writeSet;
      var deleteSet := txn.deleteSet;
      ghost var goal := Run(Tokens(code, 0), Start(txn));
      ghost var tokens := Tokens(code, 0);
      var more := NextCommand(code);
      RunFront(tokens, Start(txn));
      while more
        invariant readSet == txn.readSet
        invariant more ==> pos.At? && pos.index <= |code| && OpOf(cmd).Some? && Arity(OpOf(cmd).value) == |args|
        invariant more ==> goal == Run(Tokens(code, pos.index), Step(OpOf(cmd).value, args, KvState(readSet, writeSet, deleteSet, aborted, abortReason)))
        invariant !more ==> goal == KvState(readSet, writeSet, deleteSet, aborted, abortReason)
        decreases if more then |Tokens(code, pos.index)| + 1 else 0
      {
        ghost var rest := Tokens(code, pos.index);
        var op := OpOf(cmd).value;
        var s1 := ApplyCommand(op, args, KvState(readSet, writeSet, deleteSet, aborted, abortReason));
        StepFacts(op, args, KvState(readSet, writeSet, deleteSet, aborted, abortReason));
        writeSet, deleteSet := s1.writeSet, s1.deleteSet;
        aborted, abortReason := s1.aborted, s1.reason;
        more := NextCommand(code);
        RunFront(rest, s1);
      }
      if aborted {
        r := txn.(writeSet := writeSet, deleteSet := deleteSet, status := ABORTED, abortReason := abortReason);
      } else {
        r := txn.(writeSet := writeSet, deleteSet := deleteSet, status := COMMITTED);
      }
    }
  }

  /** A run never changes the read set nor the keys of the write set. */
  lemma {:induction false} RunKeepsKeys(tokens: seq<string>, s: KvState)
    ensures Run(tokens, s).readSet == s.readSet
    ensures Run(tokens, s).writeSet.Keys == s.writeSet.Keys
    decreases |tokens|
  {
    match Front(tokens)
    case End =>
    case Bad(_) =>
    case Command(_, op, args, rest) =>
      StepFacts(op, args, s);
      RunKeepsKeys(rest, Step(op, args, s));
  }

  /** A run only appends to the delete set, and only keys of the write set. */
  lemma {:induction false} RunDeletesWriteKeys(tokens: seq<string>, s: KvState)
    ensures |s.deleteSet| <= |Run(tokens, s).deleteSet|
    ensures Run(tokens, s).deleteSet[..|s.deleteSet|] == s.deleteSet
    ensures forall i :: |s.deleteSet| <= i < |Run(tokens, s).deleteSet| ==> Run(tokens, s).deleteSet[i] in s.writeSet
    decreases |tokens|
  {
    match Front(tokens)
    case End =>
    case Bad(_) =>
    case Command(_, op, args, rest) =>
      var s' := Step(op, args, s);
      StepFacts(op, args, s);
      RunDeletesWriteKeys(rest, s');
      DeletesTrans(s.deleteSet, s'.deleteSet, Run(rest, s').deleteSet, args[0], s.writeSet, s'.writeSet);
  }

  /** A delete set that gained at most one write-set key, and then only
    * write-set keys, has only gained write-set keys. */
  lemma DeletesTrans(a: seq<Key>, b: seq<Key>, c: seq<Key>, x: Key, w: map<Key, Value>, w': map<Key, Value>)
    requires w'.Keys == w.Keys
    requires b == a || (b == a + [x] && x in w)
    requires |b| <= |c| && c[..|b|] == b && forall i :: |b| <= i < |c| ==> c[i] in w'
    ensures |a| <= |c| && c[..|a|] == a
    ensures forall i :: |a| <= i < |c| ==> c[i] in w
  {
    assert b[..|a|] == a;
    assert c[..|a|] == c[..|b|][..|a|];
    forall i | |a| <= i < |c| ensures c[i] in w {
      if i >= |b| {
        assert c[i] in w'.Keys;
      } else {
        assert c[i] == b[i];
      }
    }
  }

  /** Once aborted, a run stays aborted, and its reason only grows. */
  lemma {:induction false} RunAbortIsSticky(tokens: seq<string>, s: KvState)
    ensures s.aborted ==> Run(tokens, s).aborted
    ensures |s.reason| <= |Run(tokens, s).reason| && Run(tokens, s).reason[..|s.reason|] == s.reason
    decreases |tokens|
  {
    match Front(tokens)
    case End =>
    case Bad(_) =>
    case Command(_, op, args, rest) =>
      StepFacts(op, args, s);
      RunAbortIsSticky(rest, Step(op, args, s));
  }

  /** A run aborts exactly when it meets a bad command or an ABORT, or
    * started aborted. */
  predicate AbortsIn(tokens: seq<string>)
    decreases |tokens|
  {
    match Front(tokens)
    case End => false
    case Bad(_) => true
    case Command(_, op, _, rest) => op == ABORT || AbortsIn(rest)
  }

  lemma {:induction false} RunAbortsIff(tokens: seq<string>, s: KvState)
    ensures Run(tokens, s).aborted <==> s.aborted || AbortsIn(tokens)
    decreases |tokens|
  {
    match Front(tokens)
    case End =>
    case Bad(_) =>
    case Command(_, op, args, rest) =>
      StepFacts(op, args, s);
      RunAbortsIff(rest, Step(op, args, s));
  }

  /** ABORT does not stop the run: the commands after it still apply. */
  lemma AbortContinues(key: string, rest: seq<string>, s: KvState)
    ensures Run(["ABORT", key] + rest, s) == Run(rest, s.(aborted := true, reason := s.reason + "User abort (key: " + key + ")"))
  {
    var tokens := ["ABORT", key] + rest;
    assert tokens == ["ABORT"] + [key] + rest;
    FrontCommand("ABORT", [key], rest);
    RunCommand(tokens, s);
  }

  /** A known command with enough arguments is what the front holds. */
  lemma FrontCommand(name: string, args: seq<string>, rest: seq<string>)
    requires OpOf(name).Some? && Arity(OpOf(name).value) == |args|
    ensures Front([name] + args + rest) == Command(name, OpOf(name).value, args, rest)
  {
    var tokens := [name] + args + rest;
    assert tokens[0] == name;
    assert tokens[1..1 + |args|] == args && tokens[1 + |args|..] == rest;
  }

  /** An unknown command aborts, with its reason, and runs nothing after it. */
  lemma UnknownCommandStops(name: string, rest: seq<string>, s: KvState)
    requires OpOf(name).None?
    ensures Run([name] + rest, s) == s.(aborted := true, reason := s.reason + "Invalid command: " + name)
  {
  }

  /** A command missing arguments aborts, with its reason, and changes no set. */
  lemma TooFewArgumentsStop(name: string, rest: seq<string>, s: KvState)
    requires OpOf(name).Some? && |rest| < Arity(OpOf(name).value)
    ensures Run([name] + rest, s) == s.(aborted := true, reason := s.reason + "Invalid number of arguments for command " + name)
  {
  }

  /** The executed transaction: ABORTED with the run's reason exactly when
    * the code aborts; its read set and the keys of its write set are those
    * it had; the delete set only gains write-set keys. */
  lemma ExecutedProperties(txn: Transaction)
    ensures Executed(txn).status == ABORTED <==> AbortsIn(Tokens(ProtoUtils.CodeOf(txn.procedure), 0))
    ensures Executed(txn).readSet == txn.readSet
    ensures Executed(txn).writeSet.Keys == txn.writeSet.Keys
    ensures txn.deleteSet <= Executed(txn).deleteSet
    ensures forall i :: |txn.deleteSet| <= i < |Executed(txn).deleteSet| ==> Executed(txn).deleteSet[i] in txn.writeSet
  {
    var tokens := Tokens(ProtoUtils.CodeOf(txn.procedure), 0);
    RunAbortsIff(tokens, Start(txn));
    RunKeepsKeys(tokens, Start(txn));
    RunDeletesWriteKeys(tokens, Start(txn));
  }

  /** SET on a key outside the write set does nothing. */
  lemma SetOutsideWriteSetIgnored(k: string, v: string, rest: seq<string>, s: KvState)
    requires k !in s.writeSet
    ensures Run(["SET", k, v] + rest, s) == Run(rest, s)
  {
    var tokens := ["SET", k, v] + rest;
    assert tokens == ["SET"] + [k, v] + rest;
    FrontCommand("SET", [k, v], rest);
    RunCommand(tokens, s);
  }

  /** DEL of a key outside the write set does nothing. */
  lemma DelOutsideWriteSetIgnored(k: string, rest: seq<string>, s: KvState)
    requires k !in s.writeSet
    ensures Run(["DEL", k] + rest, s) == Run(rest, s)
  {
    var tokens := ["DEL", k] + rest;
    assert tokens == ["DEL"] + [k] + rest;
    FrontCommand("DEL", [k], rest);
    RunCommand(tokens, s);
  }

  /** COPY s d copies the read value of s into d. */
  lemma CopyCopies(src: string, dst: string, rest: seq<string>, s: KvState)
    requires src in s.readSet && dst in s.writeSet
    ensures Run(["COPY", src, dst] + rest, s) == Run(rest, s.(writeSet := s.writeSet[dst := s.readSet[src]]))
  {
    var tokens := ["COPY", src, dst] + rest;
    assert tokens == ["COPY"] + [src, dst] + rest;
    FrontCommand("COPY", [src, dst], rest);
    RunCommand(tokens, s);
  }
}

module CommandsExamples {
  import opened Types
  import opened Commands
  import opened Wrappers
  import ProtoUtils

  /** "SET key1" lacks an argument: the transaction aborts with its sets
    * unchanged. */
  lemma NotEnoughArgumentsAborts(txn: Transaction)
    requires txn.procedure == Code("SET key1")
    ensures Executed(txn).status == ABORTED
    ensures Executed(txn).writeSet == txn.writeSet && Executed(txn).deleteSet == txn.deleteSet
    ensures Executed(txn).abortReason == "Invalid number of arguments for command SET"
  {
    SetKey1Tokens();
  }

  /** "SET key1" reads as two tokens. */
  lemma SetKey1Tokens()
    ensures Tokens("SET key1", 0) == ["SET", "key1"]
  {
    var code := "SET key1";
    FirstTokenOfSetKey1();
    assert ProtoUtils.SkipSpaces(code, 3) == 4;
    assert TokenEnd(code, 4) == 8;
    assert code[4..8] == "key1";
    assert NextToken(code, 3) == Some(("key1", 8));
    assert NextToken(code, 8) == None;
  }

  lemma FirstTokenOfSetKey1()
    ensures NextToken("SET key1", 0) == Some(("SET", 3))
  {
    var code := "SET key1";
    assert ProtoUtils.SkipSpaces(code, 0) == 0;
    assert TokenEnd(code, 0) == 3;
    assert code[0..3] == "SET";
  }
}
