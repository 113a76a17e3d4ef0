/**
 * What a client configuration file tells about its client: the record that
 * `parse_config_file_info` in bot.py and `parse_config_file` in
 * wireguard_manager.py both fill, and the line-by-line field extraction
 * they share.
 */
module ClientConfig {
  import opened Wrappers
  import opened Text

  /**
   * The dict both parsers return. A key the source leaves at None, or does
   * not set at all, is None here.
   */
  datatype ConfigInfo = ConfigInfo(
    filename: string,
    path: string,
    createdTime: Option<string>,
    clientName: Option<string>,
    publicKey: Option<string>,
    allowedIps: Option<string>,
    endpoint: Option<string>)

  /** `os.path.basename(path)`: the text after the last '/'. */
  function Basename(path: string): (base: string)
    ensures |base| <= |path|
    decreases |path|
  {
    if path == [] || path[|path| - 1] == '/' then [] else Basename(path[..|path| - 1]) + [path[|path| - 1]]
  }

  /** The base name is the part of the path after its last '/', and holds none. */
  lemma {:induction false} BasenameSpec(path: string)
    ensures path == path[..|path| - |Basename(path)|] + Basename(path)
    ensures '/' !in Basename(path)
    ensures |Basename(path)| < |path| ==> path[|path| - |Basename(path)| - 1] == '/'
    decreases |path|
  {
    if path != [] && path[|path| - 1] != '/' {
      var init := path[..|path| - 1];
      BasenameSpec(init);
      assert init[..|init| - |Basename(init)|] == path[..|path| - |Basename(path)|];
    }
  }

  /** The four keys the content can set. */
  datatype Slot = NameSlot | KeySlot | IpsSlot | EndpointSlot

  /** What one line of the content sets, if anything. */
  datatype Field = Field(slot: Slot, value: string) | NoField

  /**
   * The tests of the extraction loop, in their `elif` order, on the stripped
   * line: a `#` line mentioning "name" in any case gives the client name
   * (the text between the first and second '#'), and lines starting
   * `PublicKey =`, `AllowedIPs =` or `Endpoint =` give the text between the
   * first and second '='.
   */
  function FieldOf(line: string): Field {
    var l := Strip(line);
    if StartsWith(l, "#") && Contains(Lower(l), "name") then
      assert l[0] == '#';
      Field(NameSlot, Strip(SecondPiece(l, '#')))
    else if StartsWith(l, "PublicKey =") then
      assert l[10] == '=';
      Field(KeySlot, Strip(SecondPiece(l, '=')))
    else if StartsWith(l, "AllowedIPs =") then
      assert l[11] == '=';
      Field(IpsSlot, Strip(SecondPiece(l, '=')))
    else if StartsWith(l, "Endpoint =") then
      assert l[9] == '=';
      Field(EndpointSlot, Strip(SecondPiece(l, '=')))
    else NoField
  }

  /** What the lines set, line by line. */
  function Fields(lines: seq<string>): (fields: seq<Field>)
    ensures |fields| == |lines|
    decreases |lines|
  {
    if lines == [] then [] else [FieldOf(lines[0])] + Fields(lines[1..])
  }

  lemma {:induction false} FieldsAt(lines: seq<string>, k: nat)
    requires k < |lines|
    ensures Fields(lines)[k] == FieldOf(lines[k])
    decreases |lines|
  {
    if k > 0 {
      FieldsAt(lines[1..], k - 1);
    }
  }

  /** The value a record holds for a slot. */
  function Get(info: ConfigInfo, slot: Slot): Option<string> {
    match slot
    case NameSlot => info.clientName
    case KeySlot => info.publicKey
    case IpsSlot => info.allowedIps
    case EndpointSlot => info.endpoint
  }

  /** The record after one line's assignment. */
  function Apply(info: ConfigInfo, field: Field): ConfigInfo {
    match field
    case NoField => info
    case Field(slot, v) =>
      match slot
      case NameSlot => info.(clientName := Some(v))
      case KeySlot => info.(publicKey := Some(v))
      case IpsSlot => info.(allowedIps := Some(v))
      case EndpointSlot => info.(endpoint := Some(v))
  }

  /** The record after the assignments of all lines, in order. */
  function Fill(info: ConfigInfo, fields: seq<Field>): ConfigInfo
    decreases |fields|
  {
    if fields == [] then info else Fill(Apply(info, fields[0]), fields[1..])
  }

  /** The value the last line setting `slot` gives, if one does. */
  function LastSet(fields: seq<Field>, slot: Slot): Option<string>
    decreases |fields|
  {
    if fields == [] then None
    else
      var later := LastSet(fields[1..], slot);
      if later.Some? then later
      else if fields[0].Field? && fields[0].slot == slot then Some(fields[0].value)
      else None
  }

  /**
   * Later lines overwrite earlier ones: each slot ends with the value of the
   * last line setting it, or keeps its value when no line does; the file
   * name, path and creation time are never touched.
   */
  lemma {:induction false} FillLastWins(info: ConfigInfo, fields: seq<Field>, slot: Slot)
    ensures Get(Fill(info, fields), slot) ==
      if LastSet(fields, slot).Some? then LastSet(fields, slot) else Get(info, slot)
    ensures Fill(info, fields).filename == info.filename
    ensures Fill(info, fields).path == info.path
    ensures Fill(info, fields).createdTime == info.createdTime
    decreases |fields|
  {
    if fields != [] {
      FillLastWins(Apply(info, fields[0]), fields[1..], slot);
    }
  }

  /** The body of the extraction loop: one line, stripped and tested in `elif` order. */
  method ApplyLine(info: ConfigInfo, rawLine: string) returns (filled: ConfigInfo)
    ensures filled == Apply(info, FieldOf(rawLine))
  {
    filled := info;
    var line := Strip(rawLine);
    if StartsWith(line, "#") && Contains(Lower(line), "name") {
      assert line[0] == '#';
      filled := info.(clientName := Some(Strip(SecondPiece(line, '#'))));
    } else if StartsWith(line, "PublicKey =") {
      assert line[10] == '=';
      filled := info.(publicKey := Some(Strip(SecondPiece(line, '='))));
    } else if StartsWith(line, "AllowedIPs =") {
      assert line[11] == '=';
      filled := info.(allowedIps := Some(Strip(SecondPiece(line, '='))));
    } else if StartsWith(line, "Endpoint =") {
      assert line[9] == '=';
      filled := info.(endpoint := Some(Strip(SecondPiece(line, '='))));
    }
  }

  /**
   * The extraction loop the two parsers share: a matching line overwrites
   * its key.
   */
  method FillFields(info: ConfigInfo, lines: seq<string>) returns (filled: ConfigInfo)
    ensures filled == Fill(info, Fields(lines))
  {
    ghost var fields := Fields(lines);
    filled := info;
    var i := 0;
    while i < |lines|
      invariant 0 <= i <= |lines|
      invariant Fill(filled, fields[i..]) == Fill(info, fields)
    {
      FieldsAt(lines, i);
      assert fields[i..] == [fields[i]] + fields[i + 1..];
      filled := ApplyLine(filled, lines[i]);
      i := i + 1;
    }
    assert fields[i..] == [];
  }

  /** A stripped `PublicKey =` line sets the public key to its second '=' piece. */
  lemma KeyLineField(l: string)
    requires Strip(l) == l && StartsWith(l, "PublicKey =")
    ensures '=' in l
    ensures FieldOf(l) == Field(KeySlot, Strip(SecondPiece(l, '=')))
  {
    assert l[10] == '=';
    assert !StartsWith(l, "#");
  }

  /**
   * `split('=')[1]` keeps only the text up to a second '=', so the base64
   * padding at the end of a WireGuard key is cut off: the key read from
   * `PublicKey =k=` is `k`, stripped, without its final '='.
   */
  lemma KeyPaddingCut(k: string)
    requires '=' !in k
    ensures FieldOf("PublicKey =" + k + "=") == Field(KeySlot, Strip(k))
  {
    var l := "PublicKey =" + k + "=";
    KeyLineStripped(k);
    KeyLineSecondPiece(k);
    KeyLineField(l);
  }

  /** `PublicKey =k=` begins and ends with no whitespace. */
  lemma KeyLineStripped(k: string)
    ensures Strip("PublicKey =" + k + "=") == "PublicKey =" + k + "="
  {
    var l := "PublicKey =" + k + "=";
    assert LeadSpaces(l) == 0;
    assert TrailSpaces(l) == 0;
  }

  /** The second '=' piece of `PublicKey =k=` is `k` when `k` holds no '='. */
  lemma KeyLineSecondPiece(k: string)
    requires '=' !in k
    ensures '=' in "PublicKey =" + k + "="
    ensures SecondPiece("PublicKey =" + k + "=", '=') == k
  {
    var l := "PublicKey =" + k + "=";
    assert l[10] == '=';
    assert After(l, '=') == k + "=" by {
      assert l == "PublicKey " + ("=" + k + "=");
      FindAfterFree("PublicKey ", "=" + k + "=", '=');
    }
    assert Before(k + "=", '=') == k by {
      FindAfterFree(k, "=", '=');
    }
  }
}
