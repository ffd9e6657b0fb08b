/** The update cycle of main.c: fetch, compare with the last accepted data, parse, save, generate. */
module UpdateCycle {
  import opened Options
  import opened Subnets
  import opened PeerConfig
  import opened Supervisor
  import Buffers

  /** Downloading, verifying and decrypting are one step with three outcomes. */
  datatype Fetch = Failed | NotModified | Fetched(data: string)

  /** What the outside decides in one round. */
  datatype Input = Input(fetch: Fetch, readOk: bool, writeOk: bool, generateOk: bool)

  /** The settings: the address reader, this node's name, and whether a file for the fetched config is configured. */
  datatype Setup = Setup(h: Host, peerId: string, useFile: bool)

  /**
    * What survives a round: the data last accepted, whether anything was, whether my_peer was ever found, the peers
    * not freed, the saved file, and for the reader the data and peers the tinc files were written from in full (none
    * after a failure on the way).
    */
  datatype Cycle = Cycle(
    last: string, accepted: bool, mine: bool, peers: seq<Peer>, file: Option<string>,
    applied: Option<string>, generated: seq<Peer>)

  function Begin(file: Option<string>): Cycle { Cycle("", false, false, [], file, None, []) }

  /** A C string ends at the first NUL of the data. */
  function UpToNul(data: string): (t: string)
    ensures t <= data && '\0' !in t && (t == data || data[|t|] == '\0')
  {
    if data == [] || data[0] == '\0' then [] else [data[0]] + UpToNul(data[1..])
  }

  predicate Lists(peers: seq<Peer>, name: string) {
    exists i | 0 <= i < |peers| :: peers[i].name == name
  }

  /** The data of a round: fetched, or read back from the saved file. */
  function Data(c: Setup, s: Cycle, i: Input): Option<string> {
    match i.fetch
    case Fetched(data) => Some(data)
    case _ => if c.useFile && i.readOk then s.file else None
  }

  function Parsed(c: Setup, s: Cycle, data: string): seq<Peer> { ParseOnto(c.h, s.peers, UpToNul(data)) }

  /** The data of the round gets past the comparison and the search for this node. */
  predicate Accepts(c: Setup, s: Cycle, i: Input) {
    var d := Data(c, s, i);
    d.Some? && d.value != s.last && (s.mine || Lists(Parsed(c, s, d.value), c.peerId))
  }

  /** One round, with the result of main_fetch_and_apply_config. */
  function Round(c: Setup, s: Cycle, i: Input): (Cycle, int) {
    match Data(c, s, i)
    case None => (s, -1)
    case Some(data) =>
      if data == s.last then (s, 0)
      else if !Accepts(c, s, i) then (s.(peers := Parsed(c, s, data)), -1)
      else
        var t := s.(last := data, accepted := true, mine := true, peers := Parsed(c, s, data), file := Saved(c, s, i, data));
        if i.generateOk then (t.(peers := [], applied := Some(data), generated := t.peers), 1) else (t.(applied := None), -1)
  }

  /** main_tempsave_fetched_config; a file that could not be written is removed. */
  function Saved(c: Setup, s: Cycle, i: Input, data: string): Option<string> {
    if !c.useFile then s.file else if i.writeOk then Some(data) else None
  }

  function After(c: Setup, s: Cycle, inputs: seq<Input>): Cycle {
    if inputs == [] then s else Round(c, After(c, s, inputs[..|inputs| - 1]), inputs[|inputs| - 1]).0
  }

  // ----- the code, on the buffers it uses

  class Updater {
    var oldconfig: Buffers.StringBuf
    var myPeer: bool
    var peers: seq<Peer>
    var file: Option<string>

    ghost predicate Valid()
      reads this, oldconfig, oldconfig.s
    {
      oldconfig.Valid() && oldconfig.s != null && oldconfig.growby > 0
    }

    /** The state agrees with the model; what is only told to the reader is left to it. */
    ghost predicate Shows(s: Cycle)
      requires Valid()
      reads this, oldconfig, oldconfig.s
    {
      oldconfig.Contents() == s.last && myPeer == s.mine && peers == s.peers && file == s.file
    }

    constructor (file: Option<string>)
      ensures Valid() && Shows(Begin(file))
    {
      oldconfig := new Buffers.StringBuf.Init(4096, 4096);
      myPeer, peers := false, [];
      this.file := file;
    }

    /** main_request_config and main_load_previous_config: what fills the response. */
    method Request(c: Setup, i: Input) returns (response: Buffers.StringBuf, ok: bool)
      ensures fresh(response) && response.Valid() && response.growby > 0
      ensures ok ==> response.s != null && fresh(response.s)
      ensures forall s: Cycle | s.file == file ::
                ok == Data(c, s, i).Some? && (ok ==> response.Contents() == Data(c, s, i).value)
    {
      response := new Buffers.StringBuf.Init(4096, 512);
      match i.fetch {
        case Fetched(data) =>
          ok := response.Concatb(data);
          if response.length > 0 {
            ok := response.EnsureZ();
          }
        case _ =>
          response.Free();
          if !c.useFile || file.None? || !i.readOk {
            ok := false;
            return;
          }
          ok := response.Concatb(file.value);
          ok := response.EnsureZ();
      }
    }
  
    /** main_parse_config: the parsed peers are added to those left from before, and my_peer is never reset. */
    method ParseConfig(c: Setup, data: string) returns (ok: bool)
      modifies this`peers, this`myPeer
      ensures peers == ParseOnto(c.h, old(peers), UpToNul(data))
      ensures myPeer == ok == (old(myPeer) || Lists(peers, c.peerId))
    {
      var parser := new Parser(peers);
      parser.ParseConfig(c.h, UpToNul(data));
      peers := parser.configList;
      for k := 0 to |parser.configList|
        invariant peers == parser.configList
        invariant peers == ParseOnto(c.h, old(peers), UpToNul(data))
        invariant myPeer == (old(myPeer) || exists j | 0 <= j < k :: peers[j].name == c.peerId)
      {
        if peers[k].name == c.peerId {
          myPeer := true;
        }
      }
      ok := myPeer;
    }

    /** main_fetch_and_apply_config. */
    method FetchAndApply(c: Setup, i: Input, ghost s: Cycle) returns (result: int)
      requires Valid() && Shows(s)
      modifies this, oldconfig, oldconfig.s
      ensures Valid() && Shows(Round(c, s, i).0) && result == Round(c, s, i).1
    {
      var response, ok := Request(c, i);
      if !ok {
        return -1;
      }
      var same := response.Equals(oldconfig);
      if same {
        return 0;
      }
      var data := response.s[..response.length];
      assert Data(c, s, i) == Some(data);
      ok := ParseConfig(c, data);
      if !ok {
        return -1;
      }
      if c.useFile {
        file := if i.writeOk then Some(data) else None;
      }
      oldconfig.Free();
      response.Move(oldconfig);
      if !i.generateOk {
        return -1;
      }
      peers := [];
      return 1;
    }
  }

  // ----- whole runs

  /** After the first accepted config the saved file, if there is one, holds the last accepted data. */
  predicate Settled(c: Setup, s: Cycle) {
    && (s.accepted ==> s.mine && (c.useFile && s.file.Some? ==> s.file.value == s.last))
    && (!s.accepted ==> s.last == "" && s.applied.None? && !s.mine)
  }

  lemma {:induction false} RunSettled(c: Setup, file: Option<string>, inputs: seq<Input>)
    ensures Settled(c, After(c, Begin(file), inputs))
  {
    if inputs != [] {
      RunSettled(c, file, inputs[..|inputs| - 1]);
    }
  }

  /** An accepted round leaves exactly its data in the file, or no file when it could not be written. */
  lemma AcceptedIsSaved(c: Setup, s: Cycle, i: Input)
    requires Accepts(c, s, i)
    ensures var s' := Round(c, s, i).0;
            && s'.accepted && s'.mine && Data(c, s, i) == Some(s'.last)
            && (c.useFile && i.writeOk ==> s'.file == Some(s'.last))
            && (c.useFile && !i.writeOk ==> s'.file.None?)
            && (!c.useFile ==> s'.file == s.file)
  {
  }

  /** What the three results stand for: nothing usable or a failure, nothing new, new files. */
  lemma ResultsMean(c: Setup, s: Cycle, i: Input)
    ensures var (s', r) := Round(c, s, i);
            && r in {-1, 0, 1}
            && (r == 0 <==> Data(c, s, i) == Some(s.last))
            && (r == 1 <==> s'.applied.Some? && s'.applied == Data(c, s, i) && Accepts(c, s, i))
            && (r == 0 ==> s' == s)
  {
  }

  /** A round that accepts nothing leaves the saved file, the data compared with and the tinc files as they were. */
  lemma RejectedIsKept(c: Setup, s: Cycle, i: Input)
    requires !Accepts(c, s, i)
    ensures Round(c, s, i).0 == s.(peers := Round(c, s, i).0.peers)
  {
  }

  /** A round without a successful fetch changes nothing and restarts nothing, once a config was accepted. */
  lemma NoSpuriousRestart(c: Setup, file: Option<string>, inputs: seq<Input>, i: Input)
    requires After(c, Begin(file), inputs).accepted && !i.fetch.Fetched?
    ensures var s := After(c, Begin(file), inputs);
            Round(c, s, i).0 == s && Round(c, s, i).1 in {-1, 0}
  {
    RunSettled(c, file, inputs);
  }

  /** From then on a restart follows only a fetch of other data, which is then the data accepted, saved and applied. */
  lemma RestartMeansNew(c: Setup, file: Option<string>, inputs: seq<Input>, i: Input)
    requires After(c, Begin(file), inputs).accepted
    requires Round(c, After(c, Begin(file), inputs), i).1 == 1
    ensures var s := After(c, Begin(file), inputs);
            var s' := Round(c, s, i).0;
            i.fetch.Fetched? && i.fetch.data != s.last && s'.last == i.fetch.data && s'.applied == Some(i.fetch.data)
            && (c.useFile ==> s'.file in {None, Some(i.fetch.data)})
  {
    RunSettled(c, file, inputs);
  }

  /** Before that a restart can also follow from the saved file: it only has to be unreadable in the first round. */
  lemma RestartFromFile(c: Setup, data: string, w: bool, g: bool)
    requires c.useFile && data != "" && Lists(ParseText(c.h, UpToNul(data)), c.peerId)
    ensures var s := After(c, Begin(Some(data)), [Input(Failed, false, w, g)]);
            Round(c, s, Input(NotModified, true, w, true)).1 == 1
  {
    var first := [Input(Failed, false, w, g)];
    assert first[..0] == [];
    assert After(c, Begin(Some(data)), first) == Begin(Some(data));
  }

  // ----- a config that was accepted but not written out

  /** The last accepted data is not what the tinc files were written from. */
  predicate Stale(s: Cycle) { s.accepted && s.applied != Some(s.last) }

  /** The last round that accepted its data. */
  function LastAccepting(c: Setup, s: Cycle, inputs: seq<Input>): Option<Input> {
    if inputs == [] then None
    else
      var i := inputs[|inputs| - 1];
      if Accepts(c, After(c, s, inputs[..|inputs| - 1]), i) then Some(i) else LastAccepting(c, s, inputs[..|inputs| - 1])
  }

  /** This is so exactly when writing the files failed in the last round that accepted its data. */
  lemma {:induction false} StaleIff(c: Setup, file: Option<string>, inputs: seq<Input>)
    ensures var l := LastAccepting(c, Begin(file), inputs);
            && (Stale(After(c, Begin(file), inputs)) <==> l.Some? && !l.value.generateOk)
            && (After(c, Begin(file), inputs).accepted <==> l.Some?)
  {
    if inputs != [] {
      StaleIff(c, file, inputs[..|inputs| - 1]);
    }
  }

  /** The fetch delivers nothing the cycle has not accepted already. */
  predicate NothingNew(s: Cycle, i: Input) { i.fetch.Fetched? ==> i.fetch.data == s.last }

  /** And it stays so, without a restart, until other data arrives: the update is lost. */
  lemma {:induction false} UpdateLost(c: Setup, file: Option<string>, inputs: seq<Input>, more: seq<Input>)
    requires var s := After(c, Begin(file), inputs);
             s.accepted && forall k | 0 <= k < |more| :: NothingNew(s, more[k])
    ensures var s := After(c, Begin(file), inputs);
            After(c, s, more) == s && forall k | 0 <= k < |more| :: Round(c, s, more[k]).1 in {-1, 0}
  {
    var s := After(c, Begin(file), inputs);
    RunSettled(c, file, inputs);
    if more != [] {
      UpdateLost(c, file, inputs, more[..|more| - 1]);
      var i := more[|more| - 1];
      assert NothingNew(s, i) && Round(c, s, i).0 == s && Round(c, s, i).1 in {-1, 0};
    }
  }

  // ----- peers left over

  /** Parsing puts the peers of the text behind those already there. */
  lemma {:induction false} ParseAppends(h: Host, peers: seq<Peer>, lines: seq<string>)
    ensures Peers(PeerConfig.Run(h, Fresh(peers), lines)) == peers + Peers(PeerConfig.Run(h, Fresh([]), lines))
    decreases |lines|
  {
    if lines != [] {
      if StartsSection(lines) {
        HeaderRestarts(h, Fresh(peers), lines);
      } else {
        assert PeerConfig.Step(h, Fresh(peers), lines[0]) == Fresh(peers);
        assert PeerConfig.Step(h, Fresh([]), lines[0]) == Fresh([]);
        ParseAppends(h, peers, lines[1..]);
      }
    }
  }

  /** The files are written from the peers of the data alone exactly when no peers were left over. */
  lemma GeneratedExactly(c: Setup, s: Cycle, i: Input)
    requires Round(c, s, i).1 == 1
    ensures var peers := ParseText(c.h, UpToNul(Data(c, s, i).value));
            Round(c, s, i).0.generated == s.peers + peers && (Round(c, s, i).0.generated == peers <==> s.peers == [])
  {
    ParseAppends(c.h, s.peers, Lines(UpToNul(Data(c, s, i).value)));
  }

  /** The peers a round leaves behind: none after success, all those parsed after a failure, else those from before. */
  lemma PeersAfter(c: Setup, s: Cycle, i: Input)
    ensures var (s', r) := Round(c, s, i);
            var d := Data(c, s, i);
            s'.peers == if r == 1 then []
                        else if d.Some? && d.value != s.last then s.peers + ParseText(c.h, UpToNul(d.value))
                        else s.peers
  {
    var d := Data(c, s, i);
    if d.Some? {
      ParseAppends(c.h, s.peers, Lines(UpToNul(d.value)));
    }
  }

  /** When writing the files failed, the next config accepted is written together with the peers of the failed one. */
  lemma PeersLeftOver(c: Setup, s: Cycle, i: Input, j: Input)
    requires s.peers == [] && Accepts(c, s, i) && !i.generateOk
    requires Round(c, Round(c, s, i).0, j).1 == 1
    ensures Round(c, Round(c, s, i).0, j).0.generated ==
            ParseText(c.h, UpToNul(Data(c, s, i).value))
            + ParseText(c.h, UpToNul(Data(c, Round(c, s, i).0, j).value))
  {
    GeneratedExactly(c, Round(c, s, i).0, j);
  }

  /** No peers are left over when every round up to here either had nothing to parse or succeeded. */
  predicate Smooth(c: Setup, s: Cycle, i: Input) {
    var d := Data(c, s, i);
    d.Some? && d.value != s.last ==> Round(c, s, i).1 == 1
  }

  lemma {:induction false} SmoothRun(c: Setup, file: Option<string>, inputs: seq<Input>)
    requires forall k | 0 <= k < |inputs| :: Smooth(c, After(c, Begin(file), inputs[..k]), inputs[k])
    ensures After(c, Begin(file), inputs).peers == []
  {
    if inputs != [] {
      var front := inputs[..|inputs| - 1];
      forall k | 0 <= k < |front| ensures Smooth(c, After(c, Begin(file), front[..k]), front[k]) {
        assert front[..k] == inputs[..k];
      }
      SmoothRun(c, file, front);
    }
  }

  /** A config that does not list this node is accepted all the same, if and only if one was accepted before. */
  lemma UnlistedAccepted(c: Setup, file: Option<string>, inputs: seq<Input>, i: Input)
    requires var s := After(c, Begin(file), inputs);
             i.fetch.Fetched? && i.fetch.data != s.last && !Lists(Parsed(c, s, i.fetch.data), c.peerId)
    ensures var s := After(c, Begin(file), inputs); Accepts(c, s, i) <==> s.accepted
  {
    RunSettled(c, file, inputs);
  }

  // ----- the commands the parent sends

  /** A RESTART for every round of the update loop that succeeded. */
  function Restarts(c: Setup, s: Cycle, inputs: seq<Input>): seq<Command> {
    if inputs == [] then []
    else
      var front := inputs[..|inputs| - 1];
      Restarts(c, s, front) + if Round(c, After(c, s, front), inputs[|inputs| - 1]).1 == 1 then [Restart] else []
  }

  /** What main sends down the pipe: the result of the round before the loop is not looked at. */
  function Sent(c: Setup, file: Option<string>, first: Input, inputs: seq<Input>): seq<Command> {
    [SignalOld, Start] + Restarts(c, Round(c, Begin(file), first).0, inputs) + [Stop]
  }

  lemma {:induction false} OnlyRestarts(c: Setup, s: Cycle, inputs: seq<Input>)
    ensures forall k | 0 <= k < |Restarts(c, s, inputs)| :: Restarts(c, s, inputs)[k] == Restart
  {
    if inputs != [] {
      OnlyRestarts(c, s, inputs[..|inputs| - 1]);
    }
  }

  /** It is a history the worker protocol is about: the supervisor's parent can send exactly this. */
  lemma SentIsHistory(c: Setup, file: Option<string>, first: Input, inputs: seq<Input>)
    ensures Grammar(Sent(c, file, first, inputs))
    ensures exists steps :: Exec(Init(false), steps).sent == Sent(c, file, first, inputs)
  {
    var s := Round(c, Begin(file), first).0;
    var rs := Restarts(c, s, inputs);
    OnlyRestarts(c, s, inputs);
    SendRestarts(rs);
    var steps := seq(2 + |rs|, _ => ParentWrites(false));
    assert (steps + [ParentWrites(true)])[..|steps|] == steps;
    assert Exec(Init(false), steps + [ParentWrites(true)]).sent == Sent(c, file, first, inputs);
  }

  lemma {:induction false} SendRestarts(rs: seq<Command>)
    requires forall k | 0 <= k < |rs| :: rs[k] == Restart
    ensures Exec(Init(false), seq(2 + |rs|, _ => ParentWrites(false)))
            == Init(false).(sent := [SignalOld, Start] + rs, parent := Serving)
  {
    var steps := seq(2 + |rs|, _ => ParentWrites(false));
    if rs == [] {
      assert steps == [ParentWrites(false), ParentWrites(false)];
      assert steps[..1] == [ParentWrites(false)] && steps[..1][..0] == [];
      assert Exec(Init(false), steps[..1]) == Do(Init(false), ParentWrites(false));
    } else {
      var front := rs[..|rs| - 1];
      SendRestarts(front);
      assert steps[..1 + |rs|] == seq(2 + |front|, _ => ParentWrites(false));
      assert [SignalOld, Start] + rs == [SignalOld, Start] + front + [Restart];
    }
  }
}
