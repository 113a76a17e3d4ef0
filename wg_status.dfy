/**
 * The `wg show` status parser that bot-ssh.py, bot.py and wireguard_manager.py
 * each carry a copy of (`get_wg_configs`), the peer-key set and the record
 * lookup built on it (`get_current_peers`, `get_peer_info`), and one pass of
 * the peer part of `monitoring_loop`.
 */
module WgStatus {
  import opened Wrappers
  import opened Text

  /** A peer record: the source's dict, with "peer" mapped to the public key. */
  type Record = map<string, string>

  /** A line that opens a record: it begins, at column 0, with "peer:". */
  predicate IsMarker(line: string) {
    StartsWith(line, "peer:")
  }

  /** `line.split(':')[1].strip()`: the key on a marker line. */
  function MarkerKey(line: string): string
    requires IsMarker(line)
  {
    assert line[4] == ':';
    FindIn(line, ':');
    Strip(Split(line, ':')[1])
  }

  /** `key, value = line.split(':', 1)`, both stripped. */
  function FieldKey(line: string): string {
    Strip(Before(line, ':'))
  }

  function FieldValue(line: string): string
    requires ':' in line
  {
    Strip(After(line, ':'))
  }

  /** A line with a ':' sets its key to its value; any other line changes nothing. */
  function ApplyField(r: Record, line: string): Record {
    if ':' in line then r[FieldKey(line) := FieldValue(line)] else r
  }

  /** The `key: value` lines folded into a record, in order. */
  function FoldFields(r: Record, lines: seq<string>): Record
    decreases |lines|
  {
    if lines == [] then r else FoldFields(ApplyField(r, lines[0]), lines[1..])
  }

  /** The value on the last line of `lines` whose key is `key`, if there is one. */
  function LastField(lines: seq<string>, key: string): Option<string>
    decreases |lines|
  {
    if lines == [] then None
    else
      var later := LastField(lines[1..], key);
      if later.Some? then later
      else if ':' in lines[0] && FieldKey(lines[0]) == key then Some(FieldValue(lines[0]))
      else None
  }

  /** The last line with a given key wins; a key no line names keeps its value. */
  lemma {:induction false} FoldFieldsLastWins(r: Record, lines: seq<string>, key: string)
    ensures key in FoldFields(r, lines) <==> key in r || LastField(lines, key).Some?
    ensures key in FoldFields(r, lines) ==>
      FoldFields(r, lines)[key] == if LastField(lines, key).Some? then LastField(lines, key).value else r[key]
    decreases |lines|
  {
    if lines != [] {
      FoldFieldsLastWins(ApplyField(r, lines[0]), lines[1..], key);
    }
  }

  /** The loop's variables: the finished records and the open one. */
  datatype ParseState = ParseState(done: seq<Record>, current: Option<Record>)

  /** The finished records followed by the open one, if any. */
  function Flushed(st: ParseState): seq<Record> {
    if st.current.Some? then st.done + [st.current.value] else st.done
  }

  /** One iteration of the loop body. */
  function Step(st: ParseState, line: string): ParseState {
    if IsMarker(line) then ParseState(Flushed(st), Some(map["peer" := MarkerKey(line)]))
    else if st.current.Some? && Strip(line) != "" then ParseState(st.done, Some(ApplyField(st.current.value, line)))
    else st
  }

  /** The loop run over `lines` from state `st`. */
  function Run(st: ParseState, lines: seq<string>): ParseState
    decreases |lines|
  {
    if lines == [] then st else Run(Step(st, lines[0]), lines[1..])
  }

  /** What the parser returns for the lines of a status text. */
  function ParseStatus(lines: seq<string>): seq<Record> {
    Flushed(Run(ParseState([], None), lines))
  }

  /**
   * The loop of `get_wg_configs` over `output.split('\n')`: a record opens at
   * every marker line and collects the `key: value` lines after it.
   */
  method ParsePeers(output: string) returns (configs: seq<Record>)
    ensures configs == ParseStatus(Split(output, '\n'))
  {
    var lines := Split(output, '\n');
    configs := [];
    var current: Option<Record> := None;
    var i := 0;
    while i < |lines|
      invariant 0 <= i <= |lines|
      invariant Run(ParseState(configs, current), lines[i..]) == Run(ParseState([], None), lines)
    {
      var line := lines[i];
      assert lines[i..] == [line] + lines[i + 1..];
      if StartsWith(line, "peer:") {
        if current.Some? {
          configs := configs + [current.value];
        }
        current := Some(map["peer" := MarkerKey(line)]);
      } else if current.Some? && Strip(line) != "" {
        if ':' in line {
          current := Some(current.value[Strip(Before(line, ':')) := Strip(After(line, ':'))]);
        }
      }
      i := i + 1;
    }
    if current.Some? {
      configs := configs + [current.value];
    }
  }

  /** The index of the first marker line, or `|lines|` when there is none. */
  function FirstMarker(lines: seq<string>): (i: nat)
    ensures i <= |lines|
    ensures i < |lines| ==> IsMarker(lines[i])
    decreases |lines|
  {
    if lines == [] || IsMarker(lines[0]) then 0 else 1 + FirstMarker(lines[1..])
  }

  /**
   * The records described block by block: each marker line, with the lines
   * up to the next marker folded into it; a line outside such a block (the
   * `interface:` header before the first marker) belongs to no record.
   */
  function Blocks(lines: seq<string>): seq<Record>
    decreases |lines|
  {
    if lines == [] then []
    else if IsMarker(lines[0]) then
      var body := lines[1..][..FirstMarker(lines[1..])];
      [FoldFields(map["peer" := MarkerKey(lines[0])], body)] + Blocks(lines[1..])
    else Blocks(lines[1..])
  }

  /** The number of marker lines. */
  function CountMarkers(lines: seq<string>): nat
    decreases |lines|
  {
    if lines == [] then 0 else (if IsMarker(lines[0]) then 1 else 0) + CountMarkers(lines[1..])
  }

  /** The records finished before a run stay at the front. */
  lemma {:induction false} RunKeepsDone(d: seq<Record>, e: seq<Record>, c: Option<Record>, lines: seq<string>)
    ensures Run(ParseState(d + e, c), lines).done == d + Run(ParseState(e, c), lines).done
    ensures Run(ParseState(d + e, c), lines).current == Run(ParseState(e, c), lines).current
    decreases |lines|
  {
    if lines != [] {
      var l := lines[0];
      if IsMarker(l) {
        var e' := Flushed(ParseState(e, c));
        assert Flushed(ParseState(d + e, c)) == d + e';
        RunKeepsDone(d, e', Some(map["peer" := MarkerKey(l)]), lines[1..]);
      } else {
        RunKeepsDone(d, e, Step(ParseState(e, c), l).current, lines[1..]);
      }
    }
  }

  lemma FlushedKeepsDone(d: seq<Record>, c: Option<Record>, lines: seq<string>)
    ensures Flushed(Run(ParseState(d, c), lines)) == d + Flushed(Run(ParseState([], c), lines))
  {
    assert d + [] == d;
    RunKeepsDone(d, [], c, lines);
    var st := Run(ParseState([], c), lines);
    if st.current.Some? {
      assert (d + st.done) + [st.current.value] == d + (st.done + [st.current.value]);
    }
  }

  /** A line holding a ':' is not blank. */
  lemma ColonNotBlank(line: string)
    ensures ':' in line ==> Strip(line) != ""
  {
    StripBlank(line);
    if ':' in line {
      var k :| 0 <= k < |line| && line[k] == ':';
      assert !IsSpace(line[k]);
    }
  }

  /** The open record, completed with the lines up to the next marker, as a list. */
  function Open(c: Option<Record>, lines: seq<string>): seq<Record> {
    if c.Some? then [FoldFields(c.value, lines[..FirstMarker(lines)])] else []
  }

  /** A marker line flushes the open record and opens its own. */
  lemma RunIsBlocksAtMarker(c: Option<Record>, lines: seq<string>)
    requires lines != [] && IsMarker(lines[0])
    requires var init := map["peer" := MarkerKey(lines[0])];
      Flushed(Run(ParseState([], Some(init)), lines[1..])) == Open(Some(init), lines[1..]) + Blocks(lines[1..])
    ensures Flushed(Run(ParseState([], c), lines)) == Open(c, lines) + Blocks(lines)
  {
    var tail := lines[1..];
    var init := map["peer" := MarkerKey(lines[0])];
    var cl := Flushed(ParseState([], c));
    assert Run(ParseState([], c), lines) == Run(ParseState(cl, Some(init)), tail);
    FlushedKeepsDone(cl, Some(init), tail);
    assert lines[..0] == [];
    assert Open(c, lines) == cl;
    assert Blocks(lines) == Open(Some(init), tail) + Blocks(tail);
  }

  /** Any other line extends the open record, if there is one. */
  lemma RunIsBlocksAtOther(c: Option<Record>, lines: seq<string>)
    requires lines != [] && !IsMarker(lines[0])
    requires var c' := if c.Some? then Some(ApplyField(c.value, lines[0])) else None;
      Flushed(Run(ParseState([], c'), lines[1..])) == Open(c', lines[1..]) + Blocks(lines[1..])
    ensures Flushed(Run(ParseState([], c), lines)) == Open(c, lines) + Blocks(lines)
  {
    var l := lines[0];
    var tail := lines[1..];
    ColonNotBlank(l);
    var c' := if c.Some? then Some(ApplyField(c.value, l)) else None;
    assert Step(ParseState([], c), l) == ParseState([], c');
    if c.Some? {
      var m := FirstMarker(tail);
      assert lines[..1 + m][0] == l;
      assert lines[..1 + m][1..] == tail[..m];
      assert Open(c, lines) == Open(c', tail);
    }
  }

  /** From any open record, the fold ends with that record completed and then the blocks. */
  lemma {:induction false} RunIsBlocks(c: Option<Record>, lines: seq<string>)
    ensures Flushed(Run(ParseState([], c), lines)) == Open(c, lines) + Blocks(lines)
    decreases |lines|
  {
    if lines == [] {
      assert lines[..0] == [];
    } else if IsMarker(lines[0]) {
      RunIsBlocks(Some(map["peer" := MarkerKey(lines[0])]), lines[1..]);
      RunIsBlocksAtMarker(c, lines);
    } else {
      RunIsBlocks(if c.Some? then Some(ApplyField(c.value, lines[0])) else None, lines[1..]);
      RunIsBlocksAtOther(c, lines);
    }
  }

  /**
   * The parser's fold agrees with the block description: one record per
   * marker line, in input order, holding the marker's key under "peer" and
   * the `key: value` lines up to the next marker; lines before the first
   * marker contribute nothing.
   */
  lemma ParseStatusIsBlocks(lines: seq<string>)
    ensures ParseStatus(lines) == Blocks(lines)
  {
    RunIsBlocks(None, lines);
  }

  lemma {:induction false} RunCount(c: Option<Record>, lines: seq<string>)
    ensures |Flushed(Run(ParseState([], c), lines))| == (if c.Some? then 1 else 0) + CountMarkers(lines)
    decreases |lines|
  {
    if lines != [] {
      var l := lines[0];
      if IsMarker(l) {
        var init := map["peer" := MarkerKey(l)];
        FlushedKeepsDone(Flushed(ParseState([], c)), Some(init), lines[1..]);
        RunCount(Some(init), lines[1..]);
      } else {
        RunCount(Step(ParseState([], c), l).current, lines[1..]);
      }
    }
  }

  /** The parser yields exactly one record per marker line; no marker, no record. */
  lemma RecordPerMarker(lines: seq<string>)
    ensures |ParseStatus(lines)| == CountMarkers(lines)
  {
    RunCount(None, lines);
  }

  /** `get_current_peers`: the non-empty "peer" values of the records. */
  function CurrentPeers(configs: seq<Record>): (peers: set<string>)
    ensures forall p :: p in peers <==> p != "" && exists c :: c in configs && "peer" in c && c["peer"] == p
  {
    set c | c in configs && "peer" in c && c["peer"] != "" :: c["peer"]
  }

  /** No attribute line (a non-marker line holding a ':') is keyed "peer". */
  predicate NoPeerField(lines: seq<string>) {
    forall k :: 0 <= k < |lines| && !IsMarker(lines[k]) && ':' in lines[k] ==> FieldKey(lines[k]) != "peer"
  }

  /** The non-empty keys on the marker lines. */
  function MarkerKeys(lines: seq<string>): set<string>
    decreases |lines|
  {
    if lines == [] then {}
    else (if IsMarker(lines[0]) && MarkerKey(lines[0]) != "" then {MarkerKey(lines[0])} else {}) + MarkerKeys(lines[1..])
  }

  lemma {:induction false} FirstMarkerIsFirst(lines: seq<string>)
    ensures forall k :: 0 <= k < FirstMarker(lines) ==> !IsMarker(lines[k])
    decreases |lines|
  {
    if lines != [] && !IsMarker(lines[0]) {
      FirstMarkerIsFirst(lines[1..]);
      assert forall k :: 1 <= k < FirstMarker(lines) ==> lines[k] == lines[1..][k - 1];
    }
  }

  lemma {:induction false} LastFieldAbsent(lines: seq<string>, key: string)
    requires forall k :: 0 <= k < |lines| && ':' in lines[k] ==> FieldKey(lines[k]) != key
    ensures LastField(lines, key) == None
    decreases |lines|
  {
    if lines != [] {
      assert forall k :: 0 <= k < |lines| - 1 ==> lines[1..][k] == lines[k + 1];
      LastFieldAbsent(lines[1..], key);
    }
  }

  lemma PeersAppend(a: seq<Record>, b: seq<Record>)
    ensures CurrentPeers(a + b) == CurrentPeers(a) + CurrentPeers(b)
  {
    forall p | p in CurrentPeers(a + b)
      ensures p in CurrentPeers(a) + CurrentPeers(b)
    {
      var c :| c in a + b && "peer" in c && c["peer"] != "" && c["peer"] == p;
      assert c in a || c in b;
    }
  }

  /** The marker's key stays the record's "peer" when no attribute line is keyed "peer". */
  lemma {:induction false} BlocksPeers(lines: seq<string>)
    requires NoPeerField(lines)
    ensures CurrentPeers(Blocks(lines)) == MarkerKeys(lines)
    decreases |lines|
  {
    if lines != [] {
      var tail := lines[1..];
      assert forall k :: 0 <= k < |tail| ==> tail[k] == lines[k + 1];
      BlocksPeers(tail);
      if IsMarker(lines[0]) {
        var body := tail[..FirstMarker(tail)];
        var init := map["peer" := MarkerKey(lines[0])];
        FirstMarkerIsFirst(tail);
        assert forall k :: 0 <= k < |body| ==> body[k] == lines[k + 1] && !IsMarker(body[k]);
        LastFieldAbsent(body, "peer");
        FoldFieldsLastWins(init, body, "peer");
        var rec := FoldFields(init, body);
        PeersAppend([rec], Blocks(tail));
        assert CurrentPeers([rec]) == if MarkerKey(lines[0]) != "" then {MarkerKey(lines[0])} else {};
      }
    }
  }

  /**
   * `get_current_peers` after the parser: exactly the non-empty keys of the
   * marker lines, as long as no attribute line is itself keyed "peer".
   */
  lemma CurrentPeersAreMarkerKeys(lines: seq<string>)
    requires NoPeerField(lines)
    ensures CurrentPeers(ParseStatus(lines)) == MarkerKeys(lines)
  {
    ParseStatusIsBlocks(lines);
    BlocksPeers(lines);
  }

  /** `c.get('peer') == key`. */
  predicate HasPeer(c: Record, key: string) {
    "peer" in c && c["peer"] == key
  }

  /** `get_peer_info`: the first record whose "peer" is `key`, or None. */
  method PeerInfo(configs: seq<Record>, key: string) returns (found: Option<Record>)
    ensures found.None? <==> forall k :: 0 <= k < |configs| ==> !HasPeer(configs[k], key)
    ensures found.Some? ==>
      exists k :: 0 <= k < |configs| && configs[k] == found.value && HasPeer(configs[k], key) &&
                  (forall m :: 0 <= m < k ==> !HasPeer(configs[m], key))
  {
    var i := 0;
    while i < |configs|
      invariant 0 <= i <= |configs|
      invariant forall m :: 0 <= m < i ==> !HasPeer(configs[m], key)
    {
      if HasPeer(configs[i], key) {
        return Some(configs[i]);
      }
      i := i + 1;
    }
    return None;
  }

  /** Some record carries `key` as its "peer". */
  predicate Known(configs: seq<Record>, key: string) {
    exists k :: 0 <= k < |configs| && HasPeer(configs[k], key)
  }

  /**
   * One pass of the peer part of `monitoring_loop`: the keys not in the
   * previous baseline, those of them for which `get_peer_info` finds a
   * record in the status read for the lookup (the ones notified), and the
   * next baseline, which is the current key set on both branches.
   */
  method MonitorPeers(prev: set<string>, current: seq<Record>, later: seq<Record>)
    returns (newPeers: set<string>, notified: set<string>, baseline: set<string>)
    ensures newPeers == CurrentPeers(current) - prev
    ensures notified == set p | p in newPeers && Known(later, p)
    ensures baseline == CurrentPeers(current)
  {
    var peers := CurrentPeers(current);
    newPeers := peers - prev;
    notified := {};
    if newPeers != {} {
      var todo := newPeers;
      while todo != {}
        invariant todo <= newPeers
        invariant notified == set p | p in newPeers - todo && Known(later, p)
        decreases todo
      {
        var p :| p in todo;
        var info := PeerInfo(later, p);
        if info.Some? {
          notified := notified + {p};
        }
        todo := todo - {p};
      }
      baseline := peers;
    } else {
      baseline := peers;
    }
  }
}
