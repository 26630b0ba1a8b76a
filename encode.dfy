/** The encode report of nvencinfo: for one encode session, the codec banner,
    the input buffer format matrix, the limits and capabilities tables and the
    profile and preset columns, each built from the answers the NVENC driver
    gives to its queries. */
module Encode {
  import opened Layout
  import opened Catalog

  /** The answer to one NVENC call: its status and what it wrote back. */
  datatype Reply<T> = Reply(status: Status, value: T)

  predicate Ok<T>(r: Reply<T>) {
    r.status == NvEncSuccess
  }

  /** What the driver answers, query by query, for one open encode session. */
  datatype Session = Session(
    encodeGuidCount: Reply<nat>,
    encodeGuids: Reply<seq<Guid>>,
    inputFormatCount: Guid -> Reply<nat>,
    inputFormats: Guid -> Reply<seq<bv32>>,
    profileGuids: Guid -> Reply<seq<Guid>>,
    presetGuids: Guid -> Reply<seq<Guid>>,
    encodeCaps: (Guid, string) -> Reply<int>)

  /** The lines a report step writes to standard output and the value it returns. */
  datatype Emitted = Emitted(lines: seq<string>, ret: int)

  const CodecTitle: string := "                              Codec |"
  const FormatsTitle: string := "        Input Buffer Formats        |"
  const LimitsTitle: string := "              Limits                |"
  const CapsTitle: string := "            Capabilities            |"
  const ProfilesTitle: string := "              Profiles              |"
  const PresetsTitle: string := "               Presets              |"

  // ---------------------------------------------------------------------
  // print_formats

  /** The OR of the reported formats, as print_formats accumulates them. */
  function OrAll(formats: seq<bv32>): bv32 {
    if formats == [] then 0 else OrAll(formats[..|formats| - 1]) | formats[|formats| - 1]
  }

  /** Two format words have a bit in common. */
  predicate Shares(a: bv32, b: bv32) {
    a & b != 0
  }

  lemma OrShares(a: bv32, b: bv32, flag: bv32)
    ensures Shares(a | b, flag) <==> Shares(a, flag) || Shares(b, flag)
  {
    assert (a | b) & flag == (a & flag) | (b & flag);
    OrNonZero(a & flag, b & flag);
  }

  lemma OrNonZero(x: bv32, y: bv32)
    ensures x | y != 0 <==> x != 0 || y != 0
  {
  }

  /** Some reported format shares a bit with `flag`. */
  predicate AnyShares(formats: seq<bv32>, flag: bv32) {
    exists k :: 0 <= k < |formats| && Shares(formats[k], flag)
  }

  lemma AnySharesSnoc(formats: seq<bv32>, flag: bv32)
    requires formats != []
    ensures AnyShares(formats, flag)
            <==> AnyShares(formats[..|formats| - 1], flag) || Shares(formats[|formats| - 1], flag)
  {
    var init := formats[..|formats| - 1];
    if AnyShares(init, flag) {
      var k :| 0 <= k < |init| && Shares(init[k], flag);
      assert formats[k] == init[k];
    }
    if AnyShares(formats, flag) {
      var k :| 0 <= k < |formats| && Shares(formats[k], flag);
      if k < |init| {
        assert init[k] == formats[k];
      }
    }
  }

  lemma OrAllSnoc(formats: seq<bv32>)
    requires formats != []
    ensures OrAll(formats) == OrAll(formats[..|formats| - 1]) | formats[|formats| - 1]
  {
  }

  /** One accumulation step: the mask after OR-ing in `last` meets `flag`
      exactly when the old mask did or `last` does. */
  lemma SharesStep(mask: bv32, prior: bv32, last: bv32, flag: bv32, before: bool, after: bool)
    requires mask == prior | last
    requires Shares(prior, flag) <==> before
    requires after <==> before || Shares(last, flag)
    ensures Shares(mask, flag) <==> after
  {
    OrShares(prior, last, flag);
  }

  /** A catalog flag meets the accumulated mask exactly when some reported
      format shares a bit with it. */
  lemma {:induction false} OrAllMeets(formats: seq<bv32>, flag: bv32)
    ensures Shares(OrAll(formats), flag) <==> AnyShares(formats, flag)
    decreases |formats|
  {
    if formats == [] {
      assert OrAll(formats) == 0;
      assert !Shares(0, flag);
    } else {
      var init, last := formats[..|formats| - 1], formats[|formats| - 1];
      OrAllSnoc(formats);
      OrAllMeets(init, flag);
      AnySharesSnoc(formats, flag);
      SharesStep(OrAll(formats), OrAll(init), last, flag, AnyShares(init, flag), AnyShares(formats, flag));
    }
  }

  lemma SingleBitsMeet(a: bv32, b: bv32)
    requires SingleBit(a) && SingleBit(b)
    ensures a & b != 0 <==> a == b
  {
  }

  /** Where every flag is a single bit, "x" means that very format was reported. */
  lemma SingleBitFormatsMeet(formats: seq<bv32>, flag: bv32)
    requires SingleBit(flag)
    requires forall k :: 0 <= k < |formats| ==> SingleBit(formats[k])
    ensures Shares(OrAll(formats), flag) <==> flag in formats
  {
    OrAllMeets(formats, flag);
    forall k | 0 <= k < |formats|
      ensures Shares(formats[k], flag) <==> formats[k] == flag
    {
      SingleBitsMeet(formats[k], flag);
    }
  }

  /** NV16 and P210 are no single bits, so their cells are marked for codecs
      that never reported them: NV16 for any codec reporting NV12 or U8, P210
      for any codec reporting U8. */
  lemma Nv12MarksNv16(formats: seq<bv32>)
    ensures FormatNv12 in formats || FormatU8 in formats ==> Shares(OrAll(formats), FormatNv16)
    ensures FormatU8 in formats ==> Shares(OrAll(formats), FormatP210)
    ensures formats == [FormatNv12] ==> FormatNv16 !in formats && FormatP210 !in formats
  {
    OrAllMeets(formats, FormatNv16);
    OrAllMeets(formats, FormatP210);
    if FormatNv12 in formats {
      var k :| 0 <= k < |formats| && formats[k] == FormatNv12;
      assert Shares(formats[k], FormatNv16);
    }
    if FormatU8 in formats {
      var k :| 0 <= k < |formats| && formats[k] == FormatU8;
      assert Shares(formats[k], FormatNv16) && Shares(formats[k], FormatP210);
    }
  }

  /** Both format queries of one codec succeeded. */
  predicate FormatQueriesOk(session: Session, g: Guid) {
    Ok(session.inputFormatCount(g)) && Ok(session.inputFormats(g))
  }

  predicate FormatsQueriesOk(session: Session, guids: seq<Guid>) {
    forall j :: 0 <= j < |guids| ==> FormatQueriesOk(session, guids[j])
  }

  /** formats_for_guid: one accumulated mask per codec. */
  function FormatMasks(session: Session, guids: seq<Guid>): seq<bv32> {
    seq(|guids|, j requires 0 <= j < |guids| => OrAll(session.inputFormats(guids[j]).value))
  }

  function Mark(mask: bv32, flag: bv32): string {
    if Shares(mask, flag) then "x" else "."
  }

  /** The cells of one format's row: a mark per codec. */
  function FormatCells(entry: FormatEntry, masks: seq<bv32>): seq<string> {
    seq(|masks|, j requires 0 <= j < |masks| => Mark(masks[j], entry.flag))
  }

  function FormatRows(table: seq<FormatEntry>, masks: seq<bv32>): seq<string> {
    seq(|table|, i requires 0 <= i < |table| => Row(table[i].desc, FormatCells(table[i], masks)))
  }

  /** print_formats: nothing but -1 when a query fails, else the header, a
      divider, one row per catalog format and a closing divider. */
  function FormatsSection(session: Session, table: seq<FormatEntry>, guids: seq<Guid>): Emitted {
    if !FormatsQueriesOk(session, guids) then Emitted([], -1)
    else
      var n := |guids|;
      Emitted([HeaderLine(FormatsTitle, n), Divider(n)]
              + FormatRows(table, FormatMasks(session, guids)) + [Divider(n)], 0)
  }

  /** Cell (i, j) of the matrix is "x" exactly when codec j reported a format
      sharing a bit with format i, and "." otherwise. */
  lemma FormatCellsSpec(session: Session, table: seq<FormatEntry>, guids: seq<Guid>, i: nat, j: nat)
    requires i < |table| && j < |guids|
    ensures var cells := FormatCells(table[i], FormatMasks(session, guids));
            var reported := session.inputFormats(guids[j]).value;
            |cells| == |guids|
            && (cells[j] == "x" <==> AnyShares(reported, table[i].flag))
            && (cells[j] == "x" || cells[j] == ".")
  {
    OrAllMeets(session.inputFormats(guids[j]).value, table[i].flag);
  }

  /** Every format row lines up with the dividers. */
  lemma FormatRowsAligned(api: Version, masks: seq<bv32>, i: nat)
    requires i < |FormatTable(api)|
    ensures |FormatRows(FormatTable(api), masks)[i]| == LineWidth(|masks|)
  {
    var table := FormatTable(api);
    assert |table[i].desc| <= LabelWidth;
    RowWidth(table[i].desc, FormatCells(table[i], masks));
  }

  /** OR-s one codec's reported formats into its zeroed slot of formats_for_guid. */
  method AccumulateFormats(masks: array<bv32>, i: nat, formats: seq<bv32>)
    requires i < masks.Length && masks[i] == 0
    modifies masks
    ensures masks[i] == OrAll(formats)
    ensures forall k :: 0 <= k < masks.Length && k != i ==> masks[k] == old(masks[k])
  {
    assert OrAll(formats[..0]) == 0;
    for j := 0 to |formats|
      invariant masks[i] == OrAll(formats[..j])
      invariant forall k :: 0 <= k < masks.Length && k != i ==> masks[k] == old(masks[k])
    {
      assert formats[..j + 1][..j] == formats[..j];
      OrAllSnoc(formats[..j + 1]);
      masks[i] := masks[i] | formats[j];
    }
    assert formats[..|formats|] == formats;
  }

  /** The query loop of print_formats: formats_for_guid for every codec, or
      false at the first failed query. */
  method QueryFormats(session: Session, guids: seq<Guid>) returns (ok: bool, masks: seq<bv32>)
    ensures ok <==> FormatsQueriesOk(session, guids)
    ensures ok ==> masks == FormatMasks(session, guids)
  {
    var n := |guids|;
    var slots := new bv32[n](_ => 0);
    for i := 0 to n
      invariant forall k :: 0 <= k < i ==> FormatQueriesOk(session, guids[k])
      invariant forall k :: 0 <= k < i ==> slots[k] == OrAll(session.inputFormats(guids[k]).value)
      invariant forall k :: i <= k < n ==> slots[k] == 0
    {
      if CheckNv(session.inputFormatCount(guids[i]).status) != 0 {
        assert !FormatQueriesOk(session, guids[i]);
        return false, [];
      }
      var reply := session.inputFormats(guids[i]);
      if CheckNv(reply.status) != 0 {
        assert !FormatQueriesOk(session, guids[i]);
        return false, [];
      }
      AccumulateFormats(slots, i, reply.value);
    }
    ok, masks := true, slots[..];
  }

  /** The body of the format matrix: a row per catalog format, a mark per codec. */
  method PrintFormatRows(table: seq<FormatEntry>, masks: seq<bv32>) returns (rows: seq<string>)
    ensures rows == FormatRows(table, masks)
  {
    rows := [];
    for i := 0 to |table|
      invariant |rows| == i
      invariant forall r :: 0 <= r < i ==> rows[r] == Row(table[r].desc, FormatCells(table[r], masks))
    {
      var line := PrintRow(table[i].desc, FormatCells(table[i], masks));
      rows := rows + [line];
    }
  }

  /** print_formats(encoder, guids, guid_count). */
  method PrintFormats(session: Session, table: seq<FormatEntry>, guids: seq<Guid>)
    returns (lines: seq<string>, ret: int)
    ensures Emitted(lines, ret) == FormatsSection(session, table, guids)
  {
    var ok, masks := QueryFormats(session, guids);
    if !ok {
      return [], -1;
    }
    var n := |guids|;
    var header := Header(FormatsTitle, n);
    var divider := Rule('-', n);
    var rows := PrintFormatRows(table, masks);
    lines := [header, divider] + rows + [divider];
    ret := 0;
  }

  // ---------------------------------------------------------------------
  // get_cap, print_caps

  /** get_cap: the value the driver reports, or -1 when the query fails. */
  function GetCap(session: Session, g: Guid, cap: string): (v: int)
    ensures Ok(session.encodeCaps(g, cap)) ==> v == session.encodeCaps(g, cap).value
    ensures !Ok(session.encodeCaps(g, cap)) ==> v == -1
  {
    var reply := session.encodeCaps(g, cap);
    if CheckNv(reply.status) != 0 then -1 else reply.value
  }

  /** The `%10d` cells of one capability row: a value per codec. */
  function CapTexts(session: Session, key: CapEntry, guids: seq<Guid>): seq<string> {
    seq(|guids|, j requires 0 <= j < |guids| => IntToText(GetCap(session, guids[j], key.cap)))
  }

  function CapRows(session: Session, keys: seq<CapEntry>, guids: seq<Guid>): seq<string> {
    seq(|keys|, i requires 0 <= i < |keys| => Row(keys[i].desc, CapTexts(session, keys[i], guids)))
  }

  /** print_caps: the limits table, then the capabilities table. It always returns 0. */
  function CapsSection(session: Session, api: Version, guids: seq<Guid>): seq<string> {
    var n := |guids|;
    [HeaderLine(LimitsTitle, n), Divider(n)] + CapRows(session, LimitTable(api), guids)
    + [Divider(n), HeaderLine(CapsTitle, n), Divider(n)] + CapRows(session, CapTable(api), guids)
  }

  /** Reading a capability cell back gives the driver's value, or -1 for a failed query. */
  lemma CapTextsReadBack(session: Session, key: CapEntry, guids: seq<Guid>, j: nat)
    requires j < |guids|
    ensures var texts := CapTexts(session, key, guids);
            var reply := session.encodeCaps(guids[j], key.cap);
            |texts| == |guids|
            && (forall k :: (if texts[j][0] == '-' then 1 else 0) <= k < |texts[j]| ==> '0' <= texts[j][k] <= '9')
            && TextToInt(texts[j]) == (if Ok(reply) then reply.value else -1)
  {
    IntToTextRoundTrip(GetCap(session, guids[j], key.cap));
  }

  /** The caps section: 5 framing lines and one row per limit and per capability. */
  lemma CapsSectionShape(session: Session, api: Version, guids: seq<Guid>)
    ensures var lines := CapsSection(session, api, guids);
            var limits := |LimitTable(api)|;
            |lines| == limits + |CapTable(api)| + 5
            && lines[1] == Divider(|guids|) && lines[limits + 2] == Divider(|guids|)
            && lines[limits + 3] == HeaderLine(CapsTitle, |guids|)
  {
  }

  /** One table of print_caps: a row per key, a get_cap per codec. */
  method PrintCapRows(session: Session, keys: seq<CapEntry>, guids: seq<Guid>) returns (rows: seq<string>)
    ensures rows == CapRows(session, keys, guids)
  {
    rows := [];
    for i := 0 to |keys|
      invariant |rows| == i
      invariant forall r :: 0 <= r < i ==> rows[r] == Row(keys[r].desc, CapTexts(session, keys[r], guids))
    {
      var line := PrintRow(keys[i].desc, CapTexts(session, keys[i], guids));
      rows := rows + [line];
    }
  }

  /** print_caps(encoder, guids, count). */
  method PrintCaps(session: Session, api: Version, guids: seq<Guid>) returns (lines: seq<string>, ret: int)
    ensures lines == CapsSection(session, api, guids) && ret == 0
  {
    var n := |guids|;
    var limitsHeader := Header(LimitsTitle, n);
    var divider := Rule('-', n);
    var limitRows := PrintCapRows(session, LimitTable(api), guids);
    var capsHeader := Header(CapsTitle, n);
    var capRows := PrintCapRows(session, CapTable(api), guids);
    lines := [limitsHeader, divider] + limitRows + [divider, capsHeader, divider] + capRows;
    ret := 0;
  }

  // ---------------------------------------------------------------------
  // get_profiles, get_presets, print_profiles, print_presets

  /** get_profiles / get_presets: on success, fills names[0 .. count) with the
      catalog name of each GUID the driver returned and leaves the rest of
      `names` alone; on failure, -1 and nothing written. */
  method GetNames(table: seq<GuidEntry>, reply: Reply<seq<Guid>>, names: array<string>) returns (ret: int)
    requires |reply.value| <= names.Length
    modifies names
    ensures ret == 0 <==> Ok(reply)
    ensures ret == 0 || ret == -1
    ensures ret == 0 ==> forall i :: 0 <= i < |reply.value| ==> names[i] == Resolve(table, reply.value[i])
    ensures forall i :: (ret != 0 || |reply.value| <= i) && 0 <= i < names.Length ==> names[i] == old(names[i])
  {
    ret := CheckNv(reply.status);
    if ret != 0 {
      return;
    }
    var guids := reply.value;
    for i := 0 to |guids|
      invariant forall k :: 0 <= k < i ==> names[k] == Resolve(table, guids[k])
      invariant forall k :: i <= k < names.Length ==> names[k] == old(names[k])
    {
      var matched := false;
      for j := 0 to |table|
        invariant matched <==> LastMatch(table[..j], guids[i]).Some?
        invariant matched ==> names[i] == table[LastMatch(table[..j], guids[i]).value].desc
        invariant forall k :: 0 <= k < i ==> names[k] == Resolve(table, guids[k])
        invariant forall k :: i < k < names.Length ==> names[k] == old(names[k])
      {
        LastMatchSnoc(table, j, guids[i]);
        if table[j].guid == guids[i] {
          names[i] := table[j].desc;
          matched := true;
        }
      }
      assert table[..|table|] == table;
      if !matched {
        names[i] := "Unknown";
      }
    }
  }

  /** The names of one codec's column, in the order the driver listed them. */
  function ResolveAll(table: seq<GuidEntry>, guids: seq<Guid>): seq<string> {
    seq(|guids|, i requires 0 <= i < |guids| => Resolve(table, guids[i]))
  }

  function NameColumns(table: seq<GuidEntry>, replies: seq<Reply<seq<Guid>>>): seq<seq<string>> {
    seq(|replies|, j requires 0 <= j < |replies| => ResolveAll(table, replies[j].value))
  }

  /** `max`: the length of the longest column. */
  function MaxCount(columns: seq<seq<string>>): (m: nat)
    ensures forall j :: 0 <= j < |columns| ==> |columns[j]| <= m
    ensures columns == [] ==> m == 0
    ensures columns != [] ==> exists j :: 0 <= j < |columns| && |columns[j]| == m
  {
    if columns == [] then 0
    else
      var init := columns[..|columns| - 1];
      var rest := MaxCount(init);
      var last := |columns[|columns| - 1]|;
      assert forall j :: 0 <= j < |init| ==> columns[j] == init[j];
      if rest < last then last else rest
  }

  lemma MaxCountSnoc(columns: seq<seq<string>>, column: seq<string>)
    ensures MaxCount(columns + [column]) == if MaxCount(columns) < |column| then |column| else MaxCount(columns)
  {
    assert (columns + [column])[..|columns|] == columns;
  }

  /** The cells print_profiles prints, row by row: a name where the column has
      one, a blank (None) past its end. */
  function Transpose(columns: seq<seq<string>>): (grid: seq<seq<Option<string>>>)
    ensures |grid| == MaxCount(columns)
    ensures forall i :: 0 <= i < |grid| ==> |grid[i]| == |columns|
  {
    seq(MaxCount(columns), i requires 0 <= i < MaxCount(columns) => seq(|columns|, j requires 0 <= j < |columns| => if i < |columns[j]| then Some(columns[j][i]) else None))
  }

  function CellText(cell: Option<string>): string {
    match cell
    case Some(t) => t
    case None => ""
  }

  /** Reads column j of a grid back: its names, top to bottom, skipping blanks. */
  function ColumnOf(grid: seq<seq<Option<string>>>, j: nat): seq<string>
    requires forall i :: 0 <= i < |grid| ==> j < |grid[i]|
  {
    if grid == [] then []
    else
      ColumnOf(grid[..|grid| - 1], j)
      + (match grid[|grid| - 1][j] case Some(t) => [t] case None => [])
  }

  lemma {:induction false} ColumnOfPrefix(columns: seq<seq<string>>, j: nat, m: nat)
    requires j < |columns| && m <= MaxCount(columns)
    ensures ColumnOf(Transpose(columns)[..m], j) == columns[j][..if m < |columns[j]| then m else |columns[j]|]
    decreases m
  {
    var grid := Transpose(columns);
    if m > 0 {
      ColumnOfPrefix(columns, j, m - 1);
      assert grid[..m][..m - 1] == grid[..m - 1];
      if m - 1 < |columns[j]| {
        assert columns[j][..m] == columns[j][..m - 1] + [columns[j][m - 1]];
      }
    }
  }

  /** The printed grid loses nothing and adds nothing: every column reads back
      as exactly the names of that codec, in order. */
  lemma TransposeRoundTrip(columns: seq<seq<string>>)
    ensures forall j :: 0 <= j < |columns| ==> ColumnOf(Transpose(columns), j) == columns[j]
  {
    var grid := Transpose(columns);
    forall j | 0 <= j < |columns|
      ensures ColumnOf(grid, j) == columns[j]
    {
      ColumnOfPrefix(columns, j, |grid|);
      assert grid[..|grid|] == grid;
    }
  }

  /** No printed row is blank: the longest column reaches every row. */
  lemma TransposeRowsFilled(columns: seq<seq<string>>, i: nat)
    requires i < |Transpose(columns)|
    ensures exists j :: 0 <= j < |columns| && Transpose(columns)[i][j].Some?
  {
    var longest :| 0 <= longest < |columns| && |columns[longest]| == MaxCount(columns);
    assert Transpose(columns)[i][longest] == Some(columns[longest][i]);
  }

  function GridTexts(columns: seq<seq<string>>, i: nat): seq<string>
    requires i < MaxCount(columns)
  {
    seq(|columns|, j requires 0 <= j < |columns| => CellText(Transpose(columns)[i][j]))
  }

  /** The rows under the names header: each starts with an empty `%35s` label. */
  function NameRows(columns: seq<seq<string>>): seq<string> {
    seq(MaxCount(columns), i requires 0 <= i < MaxCount(columns) => Row("", GridTexts(columns, i)))
  }

  function NamesHead(title: string, n: nat): seq<string> {
    [Divider(n), HeaderLine(title, n), Divider(n)]
  }

  /** print_profiles / print_presets, with a failed query reported: the three
      head lines, then the grid and 0 when every query succeeded, or -1. */
  function NamesSection(title: string, table: seq<GuidEntry>, replies: seq<Reply<seq<Guid>>>): Emitted {
    var head := NamesHead(title, |replies|);
    if NamesQueriesOk(replies) then
      Emitted(head + NameRows(NameColumns(table, replies)), 0)
    else Emitted(head, -1)
  }

  /** One column of print_profiles / print_presets as written. When get_*
      succeeds it is the resolved names; when get_* fails it is whatever
      `profileCount[i]` and `profileGuids[i]` held before the call, written
      `leftover` here. */
  function AsWrittenColumn(table: seq<GuidEntry>, reply: Reply<seq<Guid>>, leftover: seq<string>): seq<string> {
    if Ok(reply) then ResolveAll(table, reply.value) else leftover
  }

  function AsWrittenColumns(table: seq<GuidEntry>, replies: seq<Reply<seq<Guid>>>, leftovers: seq<seq<string>>)
    : seq<seq<string>>
    requires |leftovers| == |replies|
  {
    seq(|replies|, j requires 0 <= j < |replies| => AsWrittenColumn(table, replies[j], leftovers[j]))
  }

  /** print_profiles / print_presets as written: get_* is called for its side
      effect only, its -1 is dropped, the grid is printed from whatever the
      counts and names hold, and the result is always 0. */
  function NamesSectionAsWritten(title: string, table: seq<GuidEntry>, replies: seq<Reply<seq<Guid>>>,
                                 leftovers: seq<seq<string>>): Emitted
    requires |leftovers| == |replies|
  {
    Emitted(NamesHead(title, |replies|) + NameRows(AsWrittenColumns(table, replies, leftovers)), 0)
  }

  /** As written, a failed profile or preset query is lost. get_* returns -1
      for it, yet print_profiles returns 0 and prints the failed codec's column
      from the leftover count and names. The corrected section returns -1. The
      two agree exactly when every query succeeds. */
  lemma FailedNamesQueryDropped(title: string, table: seq<GuidEntry>, replies: seq<Reply<seq<Guid>>>,
                                leftovers: seq<seq<string>>)
    requires |leftovers| == |replies|
    ensures NamesSectionAsWritten(title, table, replies, leftovers).ret == 0
    ensures !NamesQueriesOk(replies) ==>
              (exists j :: 0 <= j < |replies| && CheckNv(replies[j].status) == -1)
              && NamesSection(title, table, replies).ret == -1
    ensures forall j :: 0 <= j < |replies| && !Ok(replies[j]) ==>
              ColumnOf(Transpose(AsWrittenColumns(table, replies, leftovers)), j) == leftovers[j]
    ensures NamesQueriesOk(replies) ==>
              NamesSectionAsWritten(title, table, replies, leftovers) == NamesSection(title, table, replies)
  {
    var columns := AsWrittenColumns(table, replies, leftovers);
    TransposeRoundTrip(columns);
    if NamesQueriesOk(replies) {
      assert columns == NameColumns(table, replies);
    } else {
      var j :| 0 <= j < |replies| && !Ok(replies[j]);
      assert CheckNv(replies[j].status) == -1;
    }
  }

  /** The query loop of print_profiles / print_presets as written: every codec
      is queried, whatever the previous one answered, and get_*'s return value
      is discarded. */
  method QueryNamesAsWritten(table: seq<GuidEntry>, replies: seq<Reply<seq<Guid>>>, leftovers: seq<seq<string>>)
    returns (columns: seq<seq<string>>, max: nat)
    requires |leftovers| == |replies|
    requires forall j :: 0 <= j < |replies| ==> |replies[j].value| <= |table| && |leftovers[j]| <= |table|
    ensures columns == AsWrittenColumns(table, replies, leftovers) && max == MaxCount(columns)
  {
    columns, max := [], 0;
    for j := 0 to |replies|
      invariant |columns| == j
      invariant forall k :: 0 <= k < j ==> columns[k] == AsWrittenColumn(table, replies[k], leftovers[k])
      invariant max == MaxCount(columns)
    {
      var column := QueryColumnAsWritten(table, replies[j], leftovers[j]);
      MaxCountSnoc(columns, column);
      columns := columns + [column];
      max := if max < |column| then |column| else max;
    }
  }

  /** One get_* call of print_profiles as written: the names buffer and count
      start as `leftover`, get_* overwrites them only when it succeeds, and its
      return value is dropped. */
  method QueryColumnAsWritten(table: seq<GuidEntry>, reply: Reply<seq<Guid>>, leftover: seq<string>)
    returns (column: seq<string>)
    requires |reply.value| <= |table| && |leftover| <= |table|
    ensures column == AsWrittenColumn(table, reply, leftover)
  {
    var names := new string[|table|](i requires 0 <= i < |table| => if i < |leftover| then leftover[i] else "");
    var dropped := GetNames(table, reply, names);
    var count := if Ok(reply) then |reply.value| else |leftover|;
    column := names[..count];
  }

  /** print_profiles / print_presets as written. */
  method PrintNamesAsWritten(title: string, table: seq<GuidEntry>, replies: seq<Reply<seq<Guid>>>,
                             leftovers: seq<seq<string>>)
    returns (lines: seq<string>, ret: int)
    requires |leftovers| == |replies|
    requires forall j :: 0 <= j < |replies| ==> |replies[j].value| <= |table| && |leftovers[j]| <= |table|
    ensures Emitted(lines, ret) == NamesSectionAsWritten(title, table, replies, leftovers)
  {
    var n := |replies|;
    var divider := Rule('-', n);
    var header := Header(title, n);
    var columns, max := QueryNamesAsWritten(table, replies, leftovers);
    var rows := PrintNameRows(columns, max);
    lines := [divider, header, divider] + rows;
    ret := 0;
  }

  /** The names section's shape: its head, then on success exactly MaxCount rows. */
  lemma NamesSectionShape(title: string, table: seq<GuidEntry>, replies: seq<Reply<seq<Guid>>>)
    ensures var s := NamesSection(title, table, replies);
            s.lines[..3] == NamesHead(title, |replies|)
            && (s.ret == 0 <==> forall j :: 0 <= j < |replies| ==> Ok(replies[j]))
            && (s.ret == 0 || s.ret == -1)
            && |s.lines| == 3 + (if s.ret == 0 then MaxCount(NameColumns(table, replies)) else 0)
  {
  }

  /** The query loop of print_profiles / print_presets: a get_* per codec into
      a buffer as large as the catalog, and the running `max` of the counts. */
  method QueryNames(table: seq<GuidEntry>, replies: seq<Reply<seq<Guid>>>)
    returns (ok: bool, columns: seq<seq<string>>, max: nat)
    requires forall j :: 0 <= j < |replies| ==> |replies[j].value| <= |table|
    ensures ok <==> NamesQueriesOk(replies)
    ensures ok ==> columns == NameColumns(table, replies) && max == MaxCount(columns)
  {
    columns, max := [], 0;
    for j := 0 to |replies|
      invariant |columns| == j
      invariant forall k :: 0 <= k < j ==> Ok(replies[k]) && columns[k] == ResolveAll(table, replies[k].value)
      invariant max == MaxCount(columns)
    {
      var names := new string[|table|](_ => "");
      var status := GetNames(table, replies[j], names);
      if status != 0 {
        return false, columns, max;
      }
      var column := names[..|replies[j].value|];
      assert column == ResolveAll(table, replies[j].value);
      MaxCountSnoc(columns, column);
      columns := columns + [column];
      max := if max < |column| then |column| else max;
    }
    ok := true;
  }

  /** The grid rows of print_profiles / print_presets: for each index below
      `max`, a name where a column has one and a blank elsewhere. */
  method PrintNameRows(columns: seq<seq<string>>, max: nat) returns (rows: seq<string>)
    requires max == MaxCount(columns)
    ensures rows == NameRows(columns)
  {
    rows := [];
    for i := 0 to max
      invariant |rows| == i
      invariant forall r :: 0 <= r < i ==> rows[r] == Row("", GridTexts(columns, r))
    {
      var line := PrintRow("", GridTexts(columns, i));
      rows := rows + [line];
    }
  }

  /** print_profiles / print_presets, with a failed get_* reported. */
  method PrintNameColumns(title: string, table: seq<GuidEntry>, replies: seq<Reply<seq<Guid>>>)
    returns (lines: seq<string>, ret: int)
    requires forall j :: 0 <= j < |replies| ==> |replies[j].value| <= |table|
    ensures Emitted(lines, ret) == NamesSection(title, table, replies)
  {
    var n := |replies|;
    var divider := Rule('-', n);
    var header := Header(title, n);
    lines := [divider, header, divider];
    var ok, columns, max := QueryNames(table, replies);
    if !ok {
      return lines, -1;
    }
    var rows := PrintNameRows(columns, max);
    lines := lines + rows;
    ret := 0;
  }

  function ProfileReplies(session: Session, guids: seq<Guid>): seq<Reply<seq<Guid>>> {
    seq(|guids|, j requires 0 <= j < |guids| => session.profileGuids(guids[j]))
  }

  function PresetReplies(session: Session, guids: seq<Guid>): seq<Reply<seq<Guid>>> {
    seq(|guids|, j requires 0 <= j < |guids| => session.presetGuids(guids[j]))
  }

  /** The driver honours the capacity get_profiles and get_presets pass it. */
  predicate WithinCapacity(session: Session, api: Version, guids: seq<Guid>) {
    forall j :: 0 <= j < |guids| ==>
      |session.profileGuids(guids[j]).value| <= |ProfileTable(api)|
      && |session.presetGuids(guids[j]).value| <= |PresetTable(api)|
  }

  method PrintProfiles(session: Session, api: Version, guids: seq<Guid>) returns (lines: seq<string>, ret: int)
    requires WithinCapacity(session, api, guids)
    ensures Emitted(lines, ret) == NamesSection(ProfilesTitle, ProfileTable(api), ProfileReplies(session, guids))
  {
    lines, ret := PrintNameColumns(ProfilesTitle, ProfileTable(api), ProfileReplies(session, guids));
  }

  method PrintPresets(session: Session, api: Version, guids: seq<Guid>) returns (lines: seq<string>, ret: int)
    requires WithinCapacity(session, api, guids)
    ensures Emitted(lines, ret) == NamesSection(PresetsTitle, PresetTable(api), PresetReplies(session, guids))
  {
    lines, ret := PrintNameColumns(PresetsTitle, PresetTable(api), PresetReplies(session, guids));
  }

  // ---------------------------------------------------------------------
  // print_codecs

  /** The codec headings after "Codec |", one 12-character cell per GUID. */
  function CodecLabels(api: Version, guids: seq<Guid>): string {
    if guids == [] then "" else CodecLabels(api, guids[..|guids| - 1]) + CodecLabel(api, guids[|guids| - 1])
  }

  lemma {:induction false} CodecLabelsWidth(api: Version, guids: seq<Guid>)
    ensures |CodecLabels(api, guids)| == (CellWidth + 2) * |guids|
    decreases |guids|
  {
    if guids != [] {
      var init := guids[..|guids| - 1];
      CodecLabelsWidth(api, init);
      assert |CodecLabel(api, guids[|guids| - 1])| == 12;
      assert CodecLabels(api, guids) == CodecLabels(api, init) + CodecLabel(api, guids[|guids| - 1]);
    }
  }

  /** The banner line is exactly as wide as the thick dividers around it. */
  lemma CodecBannerWidth(api: Version, guids: seq<Guid>)
    ensures |CodecBanner(api, guids)| == LineWidth(|guids|)
  {
    CodecLabelsWidth(api, guids);
  }

  /** Heading j sits at characters 12j .. 12j+12 of the labels: each codec's
      column carries its own heading. */
  lemma {:induction false} CodecLabelsAt(api: Version, guids: seq<Guid>, j: nat)
    requires j < |guids|
    ensures |CodecLabels(api, guids)| == 12 * |guids|
    ensures CodecLabels(api, guids)[12 * j..12 * j + 12] == CodecLabel(api, guids[j])
    decreases |guids|
  {
    var init := guids[..|guids| - 1];
    var prefix := CodecLabels(api, init);
    var heading := CodecLabel(api, guids[|guids| - 1]);
    CodecLabelsWidth(api, init);
    CodecLabelsWidth(api, guids);
    assert CodecLabels(api, guids) == prefix + heading;
    if j < |init| {
      CodecLabelsAt(api, init, j);
      assert (prefix + heading)[12 * j..12 * j + 12] == prefix[12 * j..12 * j + 12];
      assert init[j] == guids[j];
    } else {
      assert (prefix + heading)[12 * j..12 * j + 12] == heading;
    }
  }

  /** Every profile and preset query of the session succeeded. */
  predicate NamesQueriesOk(replies: seq<Reply<seq<Guid>>>) {
    forall j :: 0 <= j < |replies| ==> Ok(replies[j])
  }

  /** print_codecs: the codec list, the banner, then the four sections, each
      run through CHECK_NV, and a closing thick divider. */
  function EncodeReport(session: Session, api: Version): Emitted {
    if CheckNv(session.encodeGuidCount.status) != 0 || CheckNv(session.encodeGuids.status) != 0 then
      Emitted([], -1)
    else
      var guids := session.encodeGuids.value;
      var n := |guids|;
      var banner := [ThickDivider(n), CodecBanner(api, guids), ThickDivider(n)];
      var formats := FormatsSection(session, FormatTable(api), guids);
      if CheckNv(formats.ret) != 0 then Emitted(banner + formats.lines, -1)
      else
        var caps := CapsSection(session, api, guids);
        var profiles := NamesSection(ProfilesTitle, ProfileTable(api), ProfileReplies(session, guids));
        if CheckNv(profiles.ret) != 0 then Emitted(banner + formats.lines + caps + profiles.lines, -1)
        else
          var presets := NamesSection(PresetsTitle, PresetTable(api), PresetReplies(session, guids));
          if CheckNv(presets.ret) != 0 then
            Emitted(banner + formats.lines + caps + profiles.lines + presets.lines, -1)
          else
            Emitted(banner + formats.lines + caps + profiles.lines + presets.lines + [ThickDivider(n)], 0)
  }

  /** Every query the report makes succeeded. */
  predicate ReportQueriesOk(session: Session) {
    Ok(session.encodeGuidCount) && Ok(session.encodeGuids)
    && FormatsQueriesOk(session, session.encodeGuids.value)
    && NamesQueriesOk(ProfileReplies(session, session.encodeGuids.value))
    && NamesQueriesOk(PresetReplies(session, session.encodeGuids.value))
  }

  /** print_codecs returns 0 exactly when every query succeeded, and -1 otherwise;
      nothing is printed when the codec list itself cannot be read. */
  lemma EncodeReportOutcome(session: Session, api: Version)
    ensures var r := EncodeReport(session, api);
            (r.ret == 0 <==> ReportQueriesOk(session))
            && (r.ret == 0 || r.ret == -1)
            && (!Ok(session.encodeGuidCount) || !Ok(session.encodeGuids) ==> r.lines == [])
  {
    if Ok(session.encodeGuidCount) && Ok(session.encodeGuids) {
      var guids := session.encodeGuids.value;
      var formats := FormatsSection(session, FormatTable(api), guids);
      var profiles := NamesSection(ProfilesTitle, ProfileTable(api), ProfileReplies(session, guids));
      var presets := NamesSection(PresetsTitle, PresetTable(api), PresetReplies(session, guids));
      assert formats.ret == 0 <==> FormatsQueriesOk(session, guids);
      assert formats.ret == 0 || formats.ret == -1;
      NamesSectionShape(ProfilesTitle, ProfileTable(api), ProfileReplies(session, guids));
      NamesSectionShape(PresetsTitle, PresetTable(api), PresetReplies(session, guids));
      assert profiles.ret == 0 <==> NamesQueriesOk(ProfileReplies(session, guids));
      assert presets.ret == 0 <==> NamesQueriesOk(PresetReplies(session, guids));
    }
  }

  /** A complete report opens and closes with a thick divider, and has one line
      per banner line, catalog entry, framing line and profile or preset row. */
  lemma EncodeReportShape(session: Session, api: Version)
    requires ReportQueriesOk(session)
    ensures var r := EncodeReport(session, api);
            var guids := session.encodeGuids.value;
            var n := |guids|;
            r.lines[0] == ThickDivider(n) && r.lines[|r.lines| - 1] == ThickDivider(n)
            && |r.lines| == 3 + (|FormatTable(api)| + 3) + (|LimitTable(api)| + |CapTable(api)| + 5)
                            + (3 + MaxCount(NameColumns(ProfileTable(api), ProfileReplies(session, guids))))
                            + (3 + MaxCount(NameColumns(PresetTable(api), PresetReplies(session, guids)))) + 1
  {
    var guids := session.encodeGuids.value;
    CapsSectionShape(session, api, guids);
    NamesSectionShape(ProfilesTitle, ProfileTable(api), ProfileReplies(session, guids));
    NamesSectionShape(PresetsTitle, PresetTable(api), PresetReplies(session, guids));
  }

  /** The "Codec |" line of print_codecs. */
  function CodecBanner(api: Version, guids: seq<Guid>): string {
    CodecTitle + CodecLabels(api, guids)
  }

  lemma CodecBannerSnoc(api: Version, guids: seq<Guid>, i: nat)
    requires i < |guids|
    ensures CodecBanner(api, guids[..i + 1]) == CodecBanner(api, guids[..i]) + CodecLabel(api, guids[i])
  {
    assert guids[..i + 1][..i] == guids[..i];
  }

  /** The "Codec |" line of print_codecs: a heading per codec GUID. */
  method PrintCodecLabels(api: Version, guids: seq<Guid>) returns (line: string)
    ensures line == CodecBanner(api, guids)
  {
    line := CodecTitle;
    assert guids[..0] == [];
    for i := 0 to |guids|
      invariant line == CodecBanner(api, guids[..i])
    {
      CodecBannerSnoc(api, guids, i);
      line := line + CodecLabel(api, guids[i]);
    }
    assert guids[..|guids|] == guids;
  }

  /** print_codecs(encoder). */
  method PrintCodecs(session: Session, api: Version) returns (lines: seq<string>, ret: int)
    requires Ok(session.encodeGuids) ==> WithinCapacity(session, api, session.encodeGuids.value)
    ensures Emitted(lines, ret) == EncodeReport(session, api)
  {
    lines := [];
    ret := CheckNv(session.encodeGuidCount.status);
    if ret != 0 {
      return;
    }
    ret := CheckNv(session.encodeGuids.status);
    if ret != 0 {
      return;
    }
    var guids := session.encodeGuids.value;
    var thick := Rule('=', |guids|);
    var banner := PrintCodecLabels(api, guids);
    lines := [thick, banner, thick];

    var formats, status := PrintFormats(session, FormatTable(api), guids);
    lines := lines + formats;
    ret := CheckNv(status);
    if ret != 0 {
      return;
    }
    var caps, _ := PrintCaps(session, api, guids);
    lines := lines + caps;
    var profiles, profileStatus := PrintProfiles(session, api, guids);
    lines := lines + profiles;
    ret := CheckNv(profileStatus);
    if ret != 0 {
      return;
    }
    var presets, presetStatus := PrintPresets(session, api, guids);
    lines := lines + presets;
    ret := CheckNv(presetStatus);
    if ret != 0 {
      return;
    }
    lines := lines + [thick];
  }
}
