/**
 * The lookups of a client's name in the lines of wg0.conf. They differ on
 * purpose and are kept apart: `find_client_name_by_pubkey` looks two lines
 * above a `PublicKey` line that holds the key anywhere in it, the copy
 * inlined in `show_clients_menu` gives up after the first such line,
 * `find_client_comment_in_wg0` takes the nearest comment at any distance
 * above a line whose key is exactly the one asked for, and
 * `get_pubkey_to_name_map` walks the file forward carrying a pending name.
 */
module Wg0Lookup {
  import opened Wrappers
  import opened Text

  /** The lines `read_file` returned; no file reads as no lines. */
  function Lines(wg0: Option<seq<string>>): seq<string> {
    if wg0.Some? then wg0.value else []
  }

  /** `line.strip().lower().startswith('# client:')` */
  predicate IsClientComment(line: string) {
    StartsWith(Lower(Strip(line)), "# client:")
  }

  /** `line.strip()[9:].strip()`: the name on a `# client:` line. */
  function CommentName(line: string): string {
    Strip(Drop(Strip(line), 9))
  }

  /** The name a line offers: that of a `# client:` line, else none. */
  function ClientName(line: string): Option<string> {
    if IsClientComment(line) then Some(CommentName(line)) else None
  }

  /** The names the lines offer, line by line. */
  function ClientNames(lines: seq<string>): (names: seq<Option<string>>)
    ensures |names| == |lines|
    decreases |lines|
  {
    if lines == [] then [] else [ClientName(lines[0])] + ClientNames(lines[1..])
  }

  lemma {:induction false} ClientNamesAt(lines: seq<string>, k: nat)
    requires k < |lines|
    ensures ClientNames(lines)[k] == ClientName(lines[k])
    decreases |lines|
  {
    if k > 0 {
      ClientNamesAt(lines[1..], k - 1);
    }
  }

  // ---------------------------------------------------------------------
  // find_client_name_by_pubkey and its inline copy in show_clients_menu
  // ---------------------------------------------------------------------

  /** `line.strip().startswith('PublicKey') and pubkey in line` */
  predicate KeyLineHas(line: string, pubkey: string) {
    StartsWith(Strip(line), "PublicKey") && Contains(line, pubkey)
  }

  /** Which lines are key lines holding `pubkey`, line by line. */
  function KeyHits(lines: seq<string>, pubkey: string): (hits: seq<bool>)
    ensures |hits| == |lines|
    decreases |lines|
  {
    if lines == [] then [] else [KeyLineHas(lines[0], pubkey)] + KeyHits(lines[1..], pubkey)
  }

  lemma {:induction false} KeyHitsAt(lines: seq<string>, pubkey: string, k: nat)
    requires k < |lines|
    ensures KeyHits(lines, pubkey)[k] == KeyLineHas(lines[k], pubkey)
    decreases |lines|
  {
    if k > 0 {
      KeyHitsAt(lines[1..], pubkey, k - 1);
    }
  }

  /** The name on line i-1, else on line i-2; no line above 0 is looked at. */
  function Lookback(names: seq<Option<string>>, i: nat): Option<string>
    requires i <= |names|
  {
    if i >= 1 && names[i - 1].Some? then names[i - 1]
    else if i >= 2 && names[i - 2].Some? then names[i - 2]
    else None
  }

  /** The scan of the two lines above i finds its name at j. */
  lemma LookbackFinds(names: seq<Option<string>>, i: nat, j: int)
    requires 0 <= j < i <= |names| && i - 3 < j
    requires names[j].Some?
    requires forall m :: j < m < i && m >= 0 ==> names[m].None?
    ensures Lookback(names, i) == names[j]
  {
  }

  /** The scan of the two lines above i finds no name. */
  lemma LookbackMisses(names: seq<Option<string>>, i: nat, j: int)
    requires i <= |names| && j <= i - 3
    requires forall m :: j < m < i && m >= 0 ==> names[m].None?
    ensures Lookback(names, i).None?
  {
  }

  /** Line i is the first key hit with a name in the two lines above it. */
  predicate FirstNamed(hits: seq<bool>, names: seq<Option<string>>, i: nat)
    requires |hits| == |names|
  {
    i < |hits| && hits[i] && Lookback(names, i).Some? &&
    forall k :: 0 <= k < i && hits[k] ==> Lookback(names, k).None?
  }

  /**
   * `find_client_name_by_pubkey`: the name above the first key line holding
   * `pubkey` that has one; key lines without a name are passed over.
   */
  method NameByPubkey(wg0: Option<seq<string>>, pubkey: string) returns (name: Option<string>)
    ensures name.None? <==>
      forall i :: 0 <= i < |Lines(wg0)| && KeyHits(Lines(wg0), pubkey)[i] ==> Lookback(ClientNames(Lines(wg0)), i).None?
    ensures name.Some? ==>
      exists i :: FirstNamed(KeyHits(Lines(wg0), pubkey), ClientNames(Lines(wg0)), i) &&
                  name == Lookback(ClientNames(Lines(wg0)), i)
  {
    if wg0.None? || wg0.value == [] {
      return None;
    }
    var lines := wg0.value;
    assert lines == Lines(wg0);
    ghost var hits := KeyHits(lines, pubkey);
    ghost var names := ClientNames(lines);
    var i := 0;
    while i < |lines|
      invariant 0 <= i <= |lines|
      invariant forall k :: 0 <= k < i && hits[k] ==> Lookback(names, k).None?
    {
      KeyHitsAt(lines, pubkey, i);
      if KeyLineHas(lines[i], pubkey) {
        var j := i - 1;
        while j > i - 3
          invariant i - 3 <= j <= i - 1
          invariant forall m :: j < m < i && m >= 0 ==> names[m].None?
        {
          if j >= 0 {
            ClientNamesAt(lines, j);
            if IsClientComment(lines[j]) {
              name := Some(CommentName(lines[j]));
              LookbackFinds(names, i, j);
              assert FirstNamed(hits, names, i);
              return;
            }
          }
          j := j - 1;
        }
        LookbackMisses(names, i, j);
      }
      i := i + 1;
    }
    return None;
  }

  /** Line i is the first key hit. */
  predicate FirstHit(hits: seq<bool>, i: nat) {
    i < |hits| && hits[i] && forall k :: 0 <= k < i ==> !hits[k]
  }

  /**
   * The lookup inlined in `show_clients_menu`: only the first key line
   * holding the peer is looked at, found name or not; an empty peer finds
   * nothing.
   */
  method InlineName(wg0: Option<seq<string>>, peer: string) returns (name: Option<string>)
    ensures peer == "" ==> name.None?
    ensures (forall i :: 0 <= i < |Lines(wg0)| ==> !KeyHits(Lines(wg0), peer)[i]) ==> name.None?
    ensures peer != "" ==>
      forall i :: FirstHit(KeyHits(Lines(wg0), peer), i) ==> name == Lookback(ClientNames(Lines(wg0)), i)
  {
    name := None;
    if peer == "" || wg0.None? || wg0.value == [] {
      return;
    }
    var lines := wg0.value;
    assert lines == Lines(wg0);
    ghost var hits := KeyHits(lines, peer);
    ghost var names := ClientNames(lines);
    var i := 0;
    while i < |lines|
      invariant 0 <= i <= |lines|
      invariant forall k :: 0 <= k < i ==> !hits[k]
    {
      KeyHitsAt(lines, peer, i);
      if KeyLineHas(lines[i], peer) {
        var j := i - 1;
        while j > i - 3
          invariant i - 3 <= j <= i - 1
          invariant forall m :: j < m < i && m >= 0 ==> names[m].None?
        {
          if j >= 0 {
            ClientNamesAt(lines, j);
            if IsClientComment(lines[j]) {
              name := Some(CommentName(lines[j]));
              LookbackFinds(names, i, j);
              break;
            }
          }
          j := j - 1;
        }
        if name.None? {
          LookbackMisses(names, i, j);
        }
        assert FirstHit(hits, i);
        return;
      }
      i := i + 1;
    }
  }

  /**
   * How the two differ: when the first key hit has a name above it, both
   * answer from it; when it has none, the inline copy answers None while the
   * full lookup answers from a later key hit, if one has a name.
   */
  lemma InlineAgreesOnFirstHit(hits: seq<bool>, names: seq<Option<string>>, i: nat)
    requires |hits| == |names|
    requires FirstHit(hits, i)
    ensures Lookback(names, i).Some? ==> FirstNamed(hits, names, i)
    ensures Lookback(names, i).None? ==> forall k: nat :: FirstNamed(hits, names, k) ==> k > i
  {
  }

  // ---------------------------------------------------------------------
  // find_client_comment_in_wg0 (the same in bot.py and bot-ssh.py)
  // ---------------------------------------------------------------------

  /** `line.strip()` starts with `PublicKey` and the text after its first '=', stripped, is `key`. */
  predicate KeyLineIs(line: string, key: string) {
    var ls := Strip(line);
    StartsWith(ls, "PublicKey") && Strip(LastOfSplitOnce(ls, '=')) == key
  }

  /** Which lines are keyed exactly `key`, line by line. */
  function KeyMatches(lines: seq<string>, key: string): (hits: seq<bool>)
    ensures |hits| == |lines|
    decreases |lines|
  {
    if lines == [] then [] else [KeyLineIs(lines[0], key)] + KeyMatches(lines[1..], key)
  }

  lemma {:induction false} KeyMatchesAt(lines: seq<string>, key: string, k: nat)
    requires k < |lines|
    ensures KeyMatches(lines, key)[k] == KeyLineIs(lines[k], key)
    decreases |lines|
  {
    if k > 0 {
      KeyMatchesAt(lines[1..], key, k - 1);
    }
  }

  /** `lines[j].strip().lstrip().startswith('#')` */
  predicate IsComment(line: string) {
    StartsWith(StripLeft(Strip(line)), "#")
  }

  /** A comment's text: leading '#'s and whitespace dropped, then a `client:` prefix in any case. */
  function CommentText(line: string): string {
    var text := Strip(TrimLeft(Strip(line), {'#'}));
    if StartsWith(Lower(text), "client:") then Strip(text[7..]) else text
  }

  /** The text a line offers as a comment, if it is one. */
  function CommentOf(line: string): Option<string> {
    if IsComment(line) then Some(CommentText(line)) else None
  }

  /** The comments the lines offer, line by line. */
  function Comments(lines: seq<string>): (comments: seq<Option<string>>)
    ensures |comments| == |lines|
    decreases |lines|
  {
    if lines == [] then [] else [CommentOf(lines[0])] + Comments(lines[1..])
  }

  lemma {:induction false} CommentsAt(lines: seq<string>, k: nat)
    requires k < |lines|
    ensures Comments(lines)[k] == CommentOf(lines[k])
    decreases |lines|
  {
    if k > 0 {
      CommentsAt(lines[1..], k - 1);
    }
  }

  /** The nearest comment above line i, at any distance. */
  function NearestComment(comments: seq<Option<string>>, i: nat): Option<string>
    requires i <= |comments|
    decreases i
  {
    if i == 0 then None
    else if comments[i - 1].Some? then comments[i - 1]
    else NearestComment(comments, i - 1)
  }

  /** The nearest comment is a comment above i with none in between; there is none when no line above is one. */
  lemma {:induction false} NearestCommentIsNearest(comments: seq<Option<string>>, i: nat)
    requires i <= |comments|
    ensures NearestComment(comments, i).None? <==> forall j :: 0 <= j < i ==> comments[j].None?
    ensures NearestComment(comments, i).Some? ==>
      exists j :: 0 <= j < i && comments[j] == NearestComment(comments, i) &&
                  (forall m :: j < m < i ==> comments[m].None?)
    decreases i
  {
    if i > 0 {
      if comments[i - 1].Some? {
        assert comments[i - 1] == NearestComment(comments, i);
      } else {
        NearestCommentIsNearest(comments, i - 1);
        assert NearestComment(comments, i) == NearestComment(comments, i - 1);
        if NearestComment(comments, i).Some? {
          var j :| 0 <= j < i - 1 && comments[j] == NearestComment(comments, i - 1) &&
                   (forall m :: j < m < i - 1 ==> comments[m].None?);
          assert forall m :: j < m < i ==> comments[m].None?;
        }
      }
    }
  }

  /** The backward scan from line i: the first comment met above it. */
  method ScanUp(lines: seq<string>, i: nat) returns (comment: Option<string>)
    requires i <= |lines|
    ensures comment == NearestComment(Comments(lines), i)
  {
    ghost var comments := Comments(lines);
    var j := i;
    while j > 0
      invariant 0 <= j <= i
      invariant NearestComment(comments, i) == NearestComment(comments, j)
    {
      CommentsAt(lines, j - 1);
      if IsComment(lines[j - 1]) {
        return Some(CommentText(lines[j - 1]));
      }
      j := j - 1;
    }
    return None;
  }

  /** Line i is the first line keyed `key` that has a comment above it. */
  predicate FirstCommented(hits: seq<bool>, comments: seq<Option<string>>, i: nat)
    requires |hits| == |comments|
  {
    i < |hits| && hits[i] && NearestComment(comments, i).Some? &&
    forall k :: 0 <= k < i && hits[k] ==> NearestComment(comments, k).None?
  }

  /**
   * `find_client_comment_in_wg0`: the nearest comment above the first line
   * keyed exactly `key` that has one; None when no such line has a comment
   * above it.
   */
  method CommentByKey(wg0: Option<seq<string>>, key: string) returns (comment: Option<string>)
    ensures comment.None? <==>
      forall i :: 0 <= i < |Lines(wg0)| && KeyMatches(Lines(wg0), key)[i] ==> NearestComment(Comments(Lines(wg0)), i).None?
    ensures comment.Some? ==>
      exists i :: FirstCommented(KeyMatches(Lines(wg0), key), Comments(Lines(wg0)), i) &&
                  comment == NearestComment(Comments(Lines(wg0)), i)
  {
    if wg0.None? || wg0.value == [] {
      return None;
    }
    var lines := wg0.value;
    assert lines == Lines(wg0);
    ghost var hits := KeyMatches(lines, key);
    ghost var comments := Comments(lines);
    var i := 0;
    while i < |lines|
      invariant 0 <= i <= |lines|
      invariant forall k :: 0 <= k < i && hits[k] ==> NearestComment(comments, k).None?
    {
      KeyMatchesAt(lines, key, i);
      var lineStripped := Strip(lines[i]);
      if StartsWith(lineStripped, "PublicKey") {
        var keyValue := Strip(LastOfSplitOnce(lineStripped, '='));
        if keyValue == key {
          comment := ScanUp(lines, i);
          if comment.Some? {
            assert FirstCommented(hits, comments, i);
            return;
          }
        }
      }
      i := i + 1;
    }
    return None;
  }

  // ---------------------------------------------------------------------
  // get_pubkey_to_name_map
  // ---------------------------------------------------------------------

  /** `l.split('=', 1)[-1].strip()` on the stripped line. */
  function KeyOf(line: string): string {
    Strip(LastOfSplitOnce(Strip(line), '='))
  }

  /** What the forward scan makes of a line, in the order of its tests. */
  datatype LineKind = ClientLine(name: string) | KeyLine(key: string) | PeerLine | OtherLine

  function Kind(line: string): LineKind {
    if IsClientComment(line) then ClientLine(CommentName(line))
    else if StartsWith(Strip(line), "PublicKey") then KeyLine(KeyOf(line))
    else if StartsWith(Strip(line), "[Peer]") then PeerLine
    else OtherLine
  }

  /** The kinds of the lines, line by line. */
  function Kinds(lines: seq<string>): (kinds: seq<LineKind>)
    ensures |kinds| == |lines|
    decreases |lines|
  {
    if lines == [] then [] else [Kind(lines[0])] + Kinds(lines[1..])
  }

  lemma {:induction false} KindsAt(lines: seq<string>, k: nat)
    requires k < |lines|
    ensures Kinds(lines)[k] == Kind(lines[k])
    decreases |lines|
  {
    if k > 0 {
      KindsAt(lines[1..], k - 1);
    }
  }

  /**
   * The pending name after one line; "" stands for both None and an empty
   * name, which the source's truth test treats alike.
   */
  function PendingAfter(pending: string, kind: LineKind): string {
    match kind
    case ClientLine(name) => name
    case KeyLine(_) => ""
    case PeerLine => ""
    case OtherLine => pending
  }

  /** The pending name before line n. */
  function PendingAt(kinds: seq<LineKind>, n: nat): string
    requires n <= |kinds|
    decreases n
  {
    if n == 0 then "" else PendingAfter(PendingAt(kinds, n - 1), kinds[n - 1])
  }

  /** The map after the first n lines. */
  function NameMapUpTo(kinds: seq<LineKind>, n: nat): map<string, string>
    requires n <= |kinds|
    decreases n
  {
    if n == 0 then map[]
    else
      var m := NameMapUpTo(kinds, n - 1);
      if kinds[n - 1].KeyLine? && PendingAt(kinds, n - 1) != "" then m[kinds[n - 1].key := PendingAt(kinds, n - 1)]
      else m
  }

  /** `get_pubkey_to_name_map`: the forward scan with a pending name. */
  method PubkeyToNameMap(wg0: Option<seq<string>>) returns (names: map<string, string>)
    ensures names == NameMapUpTo(Kinds(Lines(wg0)), |Lines(wg0)|)
  {
    names := map[];
    if wg0.None? || wg0.value == [] {
      return;
    }
    var lines := wg0.value;
    assert lines == Lines(wg0);
    ghost var kinds := Kinds(lines);
    var currentName := "";
    var i := 0;
    while i < |lines|
      invariant 0 <= i <= |lines|
      invariant names == NameMapUpTo(kinds, i)
      invariant currentName == PendingAt(kinds, i)
    {
      var kind := KindAt(lines, i);
      ScanStep(kinds, i);
      match kind {
        case ClientLine(name) =>
          currentName := name;
        case KeyLine(pubkey) =>
          if currentName != "" {
            names := names[pubkey := currentName];
          }
          currentName := "";
        case PeerLine =>
          currentName := "";
        case OtherLine =>
      }
      i := i + 1;
    }
  }

  /** One line of the scan: how it moves the pending name and the map. */
  lemma ScanStep(kinds: seq<LineKind>, i: nat)
    requires i < |kinds|
    ensures PendingAt(kinds, i + 1) == PendingAfter(PendingAt(kinds, i), kinds[i])
    ensures NameMapUpTo(kinds, i + 1) ==
      if kinds[i].KeyLine? && PendingAt(kinds, i) != "" then NameMapUpTo(kinds, i)[kinds[i].key := PendingAt(kinds, i)]
      else NameMapUpTo(kinds, i)
  {
  }

  /** The kind of line i, as the scan's loop body finds it. */
  method KindAt(lines: seq<string>, i: nat) returns (kind: LineKind)
    requires i < |lines|
    ensures kind == Kinds(lines)[i]
  {
    KindsAt(lines, i);
    kind := ClassifyLine(lines[i]);
  }

  /** The tests of the scan's loop body on one line, in their order. */
  method ClassifyLine(line: string) returns (kind: LineKind)
    ensures kind == Kind(line)
  {
    var l := Strip(line);
    if StartsWith(Lower(l), "# client:") {
      kind := ClientLine(Strip(Drop(l, 9)));
    } else if StartsWith(l, "PublicKey") {
      kind := KeyLine(Strip(LastOfSplitOnce(l, '=')));
    } else if StartsWith(l, "[Peer]") {
      kind := PeerLine;
    } else {
      kind := OtherLine;
    }
  }

  /** A key is mapped exactly when some key line carries it while a name is pending. */
  lemma {:induction false} NameMapKeys(kinds: seq<LineKind>, n: nat, key: string)
    requires n <= |kinds|
    ensures key in NameMapUpTo(kinds, n) <==>
      exists i :: 0 <= i < n && kinds[i] == KeyLine(key) && PendingAt(kinds, i) != ""
    decreases n
  {
    if n > 0 {
      NameMapKeys(kinds, n - 1, key);
    }
  }

  /** The last key line carrying the key with a name pending decides its name. */
  lemma {:induction false} NameMapLastWins(kinds: seq<LineKind>, n: nat, i: nat)
    requires i < n <= |kinds|
    requires kinds[i].KeyLine? && PendingAt(kinds, i) != ""
    requires forall k :: i < k < n && kinds[k] == kinds[i] ==> PendingAt(kinds, k) == ""
    ensures kinds[i].key in NameMapUpTo(kinds, n)
    ensures NameMapUpTo(kinds, n)[kinds[i].key] == PendingAt(kinds, i)
    decreases n
  {
    if n - 1 > i {
      NameMapLastWins(kinds, n - 1, i);
    }
  }

  /** A `# client:` line followed only by lines of no kind sets the pending name. */
  lemma {:induction false} PendingFromComment(kinds: seq<LineKind>, c: nat, n: nat)
    requires c < n <= |kinds|
    requires kinds[c].ClientLine?
    requires forall j :: c < j < n ==> kinds[j] == OtherLine
    ensures PendingAt(kinds, n) == kinds[c].name
    decreases n
  {
    if n - 1 > c {
      PendingFromComment(kinds, c, n - 1);
    }
  }

  /**
   * A name is pending only after a `# client:` line with no `PublicKey`,
   * `[Peer]` or other `# client:` line after it.
   */
  lemma {:induction false} PendingNeedsComment(kinds: seq<LineKind>, n: nat)
    requires n <= |kinds|
    ensures PendingAt(kinds, n) != "" ==>
      exists c :: 0 <= c < n && kinds[c] == ClientLine(PendingAt(kinds, n)) &&
                  (forall j :: c < j < n ==> kinds[j] == OtherLine)
    decreases n
  {
    if n > 0 && kinds[n - 1] == OtherLine {
      PendingNeedsComment(kinds, n - 1);
    }
  }
}
