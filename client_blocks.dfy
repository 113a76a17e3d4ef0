/**
 * Removing a client's block from wg0.conf. The local bot filters the lines
 * itself: a line that starts a block for the name is dropped together with
 * the three lines after it. The SSH bot first checks that a comment naming
 * the client exists, then runs an awk filter on the server that drops the
 * named comment and every line up to the next client comment.
 */
module ClientBlocks {
  import opened Wrappers
  import opened Text
  import opened Wg0Lookup

  // ---------------------------------------------------------------------
  // bot.py: the skip-3 filter
  // ---------------------------------------------------------------------

  /** `line.strip().lower().startswith(f"# client: {name.lower()}")`: a prefix test. */
  predicate HeadsBlock(line: string, name: string) {
    StartsWith(Lower(Strip(line)), "# client: " + Lower(name))
  }

  /** Which lines would start a block, line by line. */
  function HeadFlags(lines: seq<string>, name: string): (flags: seq<bool>)
    ensures |flags| == |lines|
    decreases |lines|
  {
    if lines == [] then [] else [HeadsBlock(lines[0], name)] + HeadFlags(lines[1..], name)
  }

  lemma {:induction false} HeadFlagsAt(lines: seq<string>, name: string, k: nat)
    requires k < |lines|
    ensures HeadFlags(lines, name)[k] == HeadsBlock(lines[k], name)
    decreases |lines|
  {
    if k > 0 {
      HeadFlagsAt(lines[1..], name, k - 1);
    }
  }

  /** `line.rstrip('\n')` */
  function Chomp(line: string): string {
    TrimRight(line, {'\n'})
  }

  /** Every line chomped, in order. */
  function ChompAll(lines: seq<string>): (r: seq<string>)
    ensures |r| == |lines|
    decreases |lines|
  {
    if lines == [] then [] else [Chomp(lines[0])] + ChompAll(lines[1..])
  }

  /**
   * The lines kept when `skip` lines are still to be dropped: a block head
   * is dropped and sets the count to 3, a line under the count is dropped
   * untested, any other line is kept chomped.
   */
  function Kept(flags: seq<bool>, lines: seq<string>, skip: nat): (kept: seq<string>)
    requires |flags| == |lines|
    ensures |kept| <= |lines|
    decreases |lines|
  {
    if lines == [] then []
    else if skip > 0 then Kept(flags[1..], lines[1..], skip - 1)
    else if flags[0] then Kept(flags[1..], lines[1..], 3)
    else [Chomp(lines[0])] + Kept(flags[1..], lines[1..], 0)
  }

  /**
   * The loop of `delete_client_block_from_wg0` in bot.py: whether some line
   * starts a block, and the lines kept.
   */
  method DropBlocks(lines: seq<string>, name: string) returns (found: bool, newLines: seq<string>)
    ensures found == AnyHead(HeadFlags(lines, name), |lines|)
    ensures newLines == Kept(HeadFlags(lines, name), lines, 0)
  {
    ghost var flags := HeadFlags(lines, name);
    newLines := [];
    var skip := 0;
    found := false;
    var i := 0;
    while i < |lines|
      invariant 0 <= i <= |lines|
      invariant 0 <= skip <= 3
      invariant skip > 0 ==> found
      invariant found == AnyHead(flags, i)
      invariant newLines + Kept(flags[i..], lines[i..], skip) == Kept(flags, lines, 0)
    {
      assert flags[i..][1..] == flags[i + 1..];
      assert lines[i..][1..] == lines[i + 1..];
      AnyHeadStep(flags, i);
      if skip > 0 {
        skip := skip - 1;
      } else {
        var head := HeadAt(lines, name, i);
        if head {
          found := true;
          skip := 3;
        } else {
          newLines := newLines + [Chomp(lines[i])];
        }
      }
      i := i + 1;
    }
    assert flags[i..] == [];
  }

  /** Some of the first `n` lines starts a block. */
  predicate AnyHead(flags: seq<bool>, n: nat)
    requires n <= |flags|
  {
    exists k :: 0 <= k < n && flags[k]
  }

  /** One more line starts a block among the first `n + 1` exactly when it or an earlier one does. */
  lemma AnyHeadStep(flags: seq<bool>, n: nat)
    requires n < |flags|
    ensures AnyHead(flags, n + 1) <==> AnyHead(flags, n) || flags[n]
  {
    if AnyHead(flags, n + 1) && !flags[n] {
      var k :| 0 <= k < n + 1 && flags[k];
      assert k < n;
    }
  }

  /** The head test of the loop body on line i. */
  method HeadAt(lines: seq<string>, name: string, i: nat) returns (head: bool)
    requires i < |lines|
    ensures head == HeadFlags(lines, name)[i]
  {
    HeadFlagsAt(lines, name, i);
    head := HeadsBlock(lines[i], name);
  }

  /** With no block head, every line is kept, chomped, in order. */
  lemma {:induction false} KeptWithoutHead(flags: seq<bool>, lines: seq<string>)
    requires |flags| == |lines|
    requires forall k :: 0 <= k < |flags| ==> !flags[k]
    ensures Kept(flags, lines, 0) == ChompAll(lines)
    decreases |lines|
  {
    if lines != [] {
      KeptWithoutHead(flags[1..], lines[1..]);
    }
  }

  /** Lines still under the count are dropped whatever they hold. */
  lemma {:induction false} KeptAfterSkip(flags: seq<bool>, lines: seq<string>, skip: nat)
    requires |flags| == |lines|
    ensures skip <= |lines| ==> Kept(flags, lines, skip) == Kept(flags[skip..], lines[skip..], 0)
    ensures skip > |lines| ==> Kept(flags, lines, skip) == []
    decreases |lines|
  {
    if lines != [] && skip > 0 {
      KeptAfterSkip(flags[1..], lines[1..], skip - 1);
      if skip <= |lines| {
        assert flags[1..][skip - 1..] == flags[skip..];
        assert lines[1..][skip - 1..] == lines[skip..];
      }
    }
  }

  /** The lines before the first head are kept as they are, chomped. */
  lemma {:induction false} KeptBeforeHead(flags: seq<bool>, lines: seq<string>, h: nat)
    requires |flags| == |lines| && h <= |lines|
    requires forall k :: 0 <= k < h ==> !flags[k]
    ensures Kept(flags, lines, 0) == ChompAll(lines[..h]) + Kept(flags[h..], lines[h..], 0)
    decreases h
  {
    if h > 0 {
      KeptBeforeHead(flags[1..], lines[1..], h - 1);
      assert lines[1..][..h - 1] == lines[..h][1..];
      assert flags[1..][h - 1..] == flags[h..];
      assert lines[1..][h - 1..] == lines[h..];
    }
  }

  /**
   * The first head and the three lines after it are dropped, tested or not;
   * everything before it is kept, and the rest is filtered afresh.
   */
  lemma BlockDropped(flags: seq<bool>, lines: seq<string>, h: nat)
    requires |flags| == |lines| && h < |lines|
    requires flags[h]
    requires forall k :: 0 <= k < h ==> !flags[k]
    ensures h + 4 <= |lines| ==>
      Kept(flags, lines, 0) == ChompAll(lines[..h]) + Kept(flags[h + 4..], lines[h + 4..], 0)
    ensures h + 4 > |lines| ==> Kept(flags, lines, 0) == ChompAll(lines[..h])
  {
    KeptBeforeHead(flags, lines, h);
    KeptAfterSkip(flags[h + 1..], lines[h + 1..], 3);
    assert flags[h..][1..] == flags[h + 1..];
    assert lines[h..][1..] == lines[h + 1..];
    if h + 4 <= |lines| {
      assert flags[h + 1..][3..] == flags[h + 4..];
      assert lines[h + 1..][3..] == lines[h + 4..];
    }
  }

  /**
   * The matching is by prefix: the comment heading the block of any longer
   * name (`alice2`) also starts a block for a name it begins with (`alice`).
   */
  lemma PrefixMatchQuirk(name: string, suffix: string)
    requires name + suffix != [] && !IsSpace((name + suffix)[|name + suffix| - 1])
    ensures HeadsBlock("# client: " + name + suffix, name)
  {
    var line := "# client: " + name + suffix;
    var p := "# client: " + Lower(name);
    assert LeadSpaces(line) == 0;
    assert TrailSpaces(line) == 0 by {
      assert line[|line| - 1] == (name + suffix)[|name + suffix| - 1];
    }
    assert Strip(line) == line;
    forall k | 0 <= k < |p| ensures Lower(line)[k] == p[k] {
      if k >= 10 {
        assert line[k] == name[k - 10];
      }
    }
    assert Lower(line)[..|p|] == p;
  }

  /** `'\n'.join(new_lines) + '\n'`: the text written back. */
  function Written(kept: seq<string>): string {
    Join(kept, '\n') + "\n"
  }

  /** Appending a part to a non-empty join adds a separator and the part. */
  lemma {:induction false} JoinAppend(parts: seq<string>, x: string, sep: char)
    requires |parts| >= 1
    ensures Join(parts + [x], sep) == Join(parts, sep) + [sep] + x
    decreases |parts|
  {
    if |parts| > 1 {
      JoinAppend(parts[1..], x, sep);
      assert (parts + [x])[1..] == parts[1..] + [x];
    }
  }

  /**
   * Split on '\n', the text written gives back the kept lines followed by
   * the empty piece after the final newline; with no line kept the file
   * holds one bare newline.
   */
  lemma WrittenReadsBack(kept: seq<string>)
    requires forall k :: 0 <= k < |kept| ==> '\n' !in kept[k]
    ensures kept != [] ==> Split(Written(kept), '\n') == kept + [""]
    ensures kept == [] ==> Written(kept) == "\n"
  {
    if kept != [] {
      JoinAppend(kept, "", '\n');
      assert Written(kept) == Join(kept + [""], '\n');
      SplitJoin(kept + [""], '\n');
    }
  }

  /** A line read with its terminator has no newline left once chomped. */
  lemma ChompedHasNoNewline(line: string)
    requires forall k :: 0 <= k < |line| - 1 ==> line[k] != '\n'
    ensures '\n' !in Chomp(line)
  {
    TrailInSpec(line, {'\n'});
    if line != [] && line[|line| - 1] == '\n' {
      assert TrailIn(line, {'\n'}) >= 1;
    }
  }

  // ---------------------------------------------------------------------
  // bot-ssh.py: the existence check and the awk filter
  // ---------------------------------------------------------------------

  /** `line.strip().lower() == f"# client: {name.lower()}"`: an exact test. */
  predicate NamesClient(line: string, name: string) {
    Lower(Strip(line)) == "# client: " + Lower(name)
  }

  /**
   * The existence check of `delete_client_block_from_wg0` in bot-ssh.py;
   * an unreadable or empty file has no such line.
   */
  method HasClientComment(wg0: Option<seq<string>>, name: string) returns (found: bool)
    ensures found <==> exists i :: 0 <= i < |Lines(wg0)| && NamesClient(Lines(wg0)[i], name)
  {
    found := false;
    if wg0.Some? && wg0.value != [] {
      var lines := wg0.value;
      assert lines == Lines(wg0);
      var i := 0;
      while i < |lines|
        invariant 0 <= i <= |lines|
        invariant forall k :: 0 <= k < i ==> !NamesClient(lines[k], name)
      {
        if NamesClient(lines[i], name) {
          found := true;
          assert NamesClient(Lines(wg0)[i], name);
          return;
        }
        i := i + 1;
      }
    }
  }

  /** `/^# *[Cc]lient:/`: a client comment in awk's sense. */
  predicate IsClientRecord(r: string) {
    r != [] && r[0] == '#' &&
    var t := TrimLeft(r[1..], {' '});
    StartsWith(t, "Client:") || StartsWith(t, "client:")
  }

  /** `s` is some spaces followed by exactly `t`: the regex ` *t$`. */
  predicate SpacesThen(s: string, t: string)
    decreases |s|
  {
    s == t || (s != [] && s[0] == ' ' && SpacesThen(s[1..], t))
  }

  /** `/^# *[Cc]lient: *{name}$/`, with `name` read literally. */
  predicate IsNamedRecord(r: string, name: string) {
    IsClientRecord(r) && SpacesThen(TrimLeft(r[1..], {' '})[7..], name)
  }

  /** How the awk program sees a record. */
  datatype RecordKind = Named | Client | Plain

  function KindOf(r: string, name: string): RecordKind {
    if IsNamedRecord(r, name) then Named
    else if IsClientRecord(r) then Client
    else Plain
  }

  /** The kinds of the records, record by record. */
  function RecordKinds(records: seq<string>, name: string): (kinds: seq<RecordKind>)
    ensures |kinds| == |records|
    decreases |records|
  {
    if records == [] then [] else [KindOf(records[0], name)] + RecordKinds(records[1..], name)
  }

  lemma {:induction false} RecordKindsAt(records: seq<string>, name: string, k: nat)
    requires k < |records|
    ensures RecordKinds(records, name)[k] == KindOf(records[k], name)
    decreases |records|
  {
    if k > 0 {
      RecordKindsAt(records[1..], name, k - 1);
    }
  }

  /**
   * The records awk prints when `del` is the flag on entry: the named
   * comment sets it and is not printed, any other client comment clears it
   * and is printed, and other records are printed while it is clear.
   */
  function AwkOut(kinds: seq<RecordKind>, records: seq<string>, del: bool): (out: seq<string>)
    requires |kinds| == |records|
    ensures |out| <= |records|
    decreases |records|
  {
    if records == [] then []
    else
      match kinds[0]
      case Named => AwkOut(kinds[1..], records[1..], true)
      case Client => [records[0]] + AwkOut(kinds[1..], records[1..], false)
      case Plain =>
        if del then AwkOut(kinds[1..], records[1..], true)
        else [records[0]] + AwkOut(kinds[1..], records[1..], false)
  }

  /** The awk program of `delete_client_block_from_wg0` in bot-ssh.py, record by record. */
  method RunAwk(records: seq<string>, name: string) returns (out: seq<string>)
    ensures out == AwkOut(RecordKinds(records, name), records, false)
  {
    ghost var kinds := RecordKinds(records, name);
    var del := false;
    out := [];
    var i := 0;
    while i < |records|
      invariant 0 <= i <= |records|
      invariant out + AwkOut(kinds[i..], records[i..], del) == AwkOut(kinds, records, false)
    {
      RecordKindsAt(records, name, i);
      assert kinds[i..][1..] == kinds[i + 1..];
      assert records[i..][1..] == records[i + 1..];
      var r := records[i];
      if IsNamedRecord(r, name) {
        del := true;
      } else if IsClientRecord(r) {
        del := false;
        out := out + [r];
      } else if !del {
        out := out + [r];
      }
      i := i + 1;
    }
    assert records[i..] == [];
  }

  /** Records before the first named comment are printed unchanged. */
  lemma {:induction false} AwkBeforeNamed(kinds: seq<RecordKind>, records: seq<string>, h: nat)
    requires |kinds| == |records| && h <= |records|
    requires forall k :: 0 <= k < h ==> kinds[k] != Named
    ensures AwkOut(kinds, records, false) == records[..h] + AwkOut(kinds[h..], records[h..], false)
    decreases h
  {
    if h > 0 {
      AwkBeforeNamed(kinds[1..], records[1..], h - 1);
      assert records[1..][..h - 1] == records[..h][1..];
      assert kinds[1..][h - 1..] == kinds[h..];
      assert records[1..][h - 1..] == records[h..];
    }
  }

  /** While the flag is set, plain records are dropped. */
  lemma {:induction false} AwkSkipsPlain(kinds: seq<RecordKind>, records: seq<string>, e: nat)
    requires |kinds| == |records| && e <= |records|
    requires forall k :: 0 <= k < e ==> kinds[k] == Plain
    ensures AwkOut(kinds, records, true) == AwkOut(kinds[e..], records[e..], true)
    decreases e
  {
    if e > 0 {
      AwkSkipsPlain(kinds[1..], records[1..], e - 1);
      assert kinds[1..][e - 1..] == kinds[e..];
      assert records[1..][e - 1..] == records[e..];
    }
  }

  /** With no named comment the file comes back unchanged. */
  lemma AwkWithoutNamed(kinds: seq<RecordKind>, records: seq<string>)
    requires |kinds| == |records|
    requires forall k :: 0 <= k < |kinds| ==> kinds[k] != Named
    ensures AwkOut(kinds, records, false) == records
  {
    AwkBeforeNamed(kinds, records, |records|);
    assert records[..|records|] == records;
  }

  /**
   * The first named comment at h and the plain records after it are
   * dropped; the next client comment, at e, ends the block and is printed.
   */
  lemma AwkDropsBlock(kinds: seq<RecordKind>, records: seq<string>, h: nat, e: nat)
    requires |kinds| == |records| && h < e <= |records|
    requires forall k :: 0 <= k < h ==> kinds[k] != Named
    requires kinds[h] == Named
    requires forall k :: h < k < e ==> kinds[k] == Plain
    requires e < |records| ==> kinds[e] != Plain
    ensures AwkOut(kinds, records, false) == records[..h] + AwkOut(kinds[e..], records[e..], true)
    ensures e < |records| && kinds[e] == Client ==>
      AwkOut(kinds, records, false) == records[..h] + [records[e]] + AwkOut(kinds[e + 1..], records[e + 1..], false)
  {
    AwkBeforeNamed(kinds, records, h);
    assert kinds[h..][1..] == kinds[h + 1..];
    assert records[h..][1..] == records[h + 1..];
    assert kinds[h..][0] == Named;
    var fromHead := AwkOut(kinds[h..], records[h..], false);
    var afterHead := AwkOut(kinds[h + 1..], records[h + 1..], true);
    assert fromHead == afterHead;
    AwkSkipsPlain(kinds[h + 1..], records[h + 1..], e - h - 1);
    assert kinds[h + 1..][e - h - 1..] == kinds[e..];
    assert records[h + 1..][e - h - 1..] == records[e..];
    assert afterHead == AwkOut(kinds[e..], records[e..], true);
    if e < |records| && kinds[e] == Client {
      assert kinds[e..][1..] == kinds[e + 1..];
      assert records[e..][1..] == records[e + 1..];
      assert kinds[e..][0] == Client;
      assert AwkOut(kinds[e..], records[e..], true) == [records[e]] + AwkOut(kinds[e + 1..], records[e + 1..], false);
    }
  }

  /**
   * The existence check and the awk pattern disagree on case: an upper-case
   * `# CLIENT:` comment for any name passes the check (the name as the
   * handler passes it: stripped and not empty) ...
   */
  lemma UpperCaseChecked(name: string)
    requires name != [] && !IsSpace(name[|name| - 1])
    ensures NamesClient("# CLIENT: " + name, name)
  {
    var line := "# CLIENT: " + name;
    assert LeadSpaces(line) == 0;
    assert TrailSpaces(line) == 0 by { assert line[|line| - 1] == name[|name| - 1]; }
    assert Strip(line) == line;
    forall k | 0 <= k < |line| ensures Lower(line)[k] == ("# client: " + Lower(name))[k] {
      if k >= 10 {
        assert line[k] == name[k - 10];
      }
    }
    assert Lower(line) == "# client: " + Lower(name);
  }

  /** ... but awk's pattern, which admits only `Client:` and `client:`, never matches it. */
  lemma UpperCaseNotAwk(name: string)
    ensures !IsNamedRecord("# CLIENT: " + name, name)
  {
    var r := "# CLIENT: " + name;
    assert r[1..] == " CLIENT: " + name;
    assert LeadIn(r[1..], {' '}) == 1 by {
      assert r[1..][1..] == "CLIENT: " + name;
    }
    var t := TrimLeft(r[1..], {' '});
    assert t == "CLIENT: " + name;
    assert t[..7][0] == 'C';
    assert t[..7][1] == 'L';
  }

  /**
   * They disagree on spacing too: `#client:` with no space after the `#`
   * fails the check for any name, so nothing is removed ...
   */
  lemma TightCommentNotChecked(name: string)
    ensures !NamesClient("#client: " + name, name)
  {
    var tight := "#client: " + name;
    assert |Lower(Strip(tight))| <= |tight| < |"# client: " + Lower(name)|;
  }

  /** ... though awk's pattern matches it for any name. */
  lemma TightCommentAwk(name: string)
    ensures IsNamedRecord("#client: " + name, name)
  {
    var tight := "#client: " + name;
    assert tight[1..] == "client: " + name;
    assert LeadIn(tight[1..], {' '}) == 0;
    var t := TrimLeft(tight[1..], {' '});
    assert t[..7] == "client:";
    assert t[7..] == " " + name;
    assert SpacesThen((" " + name)[1..], name);
  }
}
