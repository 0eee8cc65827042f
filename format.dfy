/** The listing layout of one instruction (formatOpStr in
    src/VaxDisasm.java): rows of at most four bytes, each row led by its
    address, the instruction text after the first row's byte columns. */
module Format {
  import opened Memory
  import opened HexFormat

  /** `%02x `: one byte column. */
  function ByteCol(b: Byte): (s: string)
    ensures |s| == 3
  {
    Hex2Exact(b);
    Hex2(b) + " "
  }

  /** `\t%s`: the instruction text column. */
  function TextCol(t: string): string {
    "\t" + t
  }

  /** The byte columns of bs in turn. */
  function ByteCols(bs: seq<Byte>): (s: string)
    ensures |s| == 3 * |bs|
  {
    if bs == [] then ""
    else ByteCols(bs[..|bs| - 1]) + ByteCol(bs[|bs| - 1])
  }

  /** `%4x:\t`, the address column that opens a row. */
  function AddressCol(addr: nat): string
  {
    Hex4(addr) + ":\t"
  }

  /** An address column stays on its line. */
  lemma AddressColOneLine(addr: nat)
    ensures '\n' !in AddressCol(addr)
  {
    HexDigits(addr);
  }

  /** Byte columns stay on their line. */
  lemma {:induction false} ByteColsOneLine(bs: seq<Byte>)
    ensures '\n' !in ByteCols(bs)
    decreases |bs|
  {
    if bs != [] {
      ByteColsOneLine(bs[..|bs| - 1]);
      HexDigits(bs[|bs| - 1]);
    }
  }

  /** Bytes on a row that starts with n bytes still to show. */
  function RowLen(n: nat): (h: nat)
    ensures h <= 4 && h <= n && (n > 0 ==> h > 0)
  {
    if n < 4 then n else 4
  }

  /** The rows after the first: each on a new line, with its address and
      the next (at most four) bytes. */
  function MoreRows(addr: nat, bs: seq<Byte>): string
    decreases |bs|
  {
    if bs == [] then ""
    else
      var h := RowLen(|bs|);
      "\n" + AddressCol(addr) + ByteCols(bs[..h]) + MoreRows(addr + 4, bs[h..])
  }

  /** The first row: its bytes, three spaces per missing byte, a tab and the
      instruction text. */
  function FirstRow(addr: nat, bs: seq<Byte>, t: string): string
    requires |bs| <= 4
  {
    AddressCol(addr) + ByteCols(bs) + Repeat(' ', 3 * (4 - |bs|)) + TextCol(t)
  }

  /** The listing of an instruction whose bytes `bs` start at `addr` and
      whose text is `t`: the first row holds up to four bytes and the text,
      any further bytes follow four to a row. With no bytes at all there is
      no address either, only the padding and the text. */
  function Listing(addr: nat, bs: seq<Byte>, t: string): string {
    ListingAt(addr, bs, t, 1)
  }

  /** Listing reaches Layout through one recursive step, so the verifier
      unfolds the byte columns only where a proof asks for them (through
      ListingLayout), not wherever a listing is mentioned. */
  function ListingAt(addr: nat, bs: seq<Byte>, t: string, steps: nat): string {
    if steps == 0 then Layout(addr, bs, t) else ListingAt(addr, bs, t, steps - 1)
  }

  /** Listing is the layout itself. */
  lemma ListingLayout(addr: nat, bs: seq<Byte>, t: string)
    ensures Listing(addr, bs, t) == Layout(addr, bs, t)
  {
    assert ListingAt(addr, bs, t, 0) == Layout(addr, bs, t);
  }

  /** The layout itself: the first row, then the rest four bytes at a time. */
  function Layout(addr: nat, bs: seq<Byte>, t: string): string {
    if bs == [] then Repeat(' ', 12) + TextCol(t)
    else
      var h := RowLen(|bs|);
      FirstRow(addr, bs[..h], t) + MoreRows(addr + 4, bs[h..])
  }

  /** What formatOpStr's first loop has built once it has shown `bs`: the
      rows so far, and the text once the fourth byte is out. */
  function Shown(addr: nat, bs: seq<Byte>, t: string): string {
    if bs == [] then ""
    else if |bs| < 4 then AddressCol(addr) + ByteCols(bs)
    else AddressCol(addr) + ByteCols(bs[..4]) + TextCol(t) + MoreRows(addr + 4, bs[4..])
  }

  /** What one more byte adds to the rows: a new line and address column
      when it starts a row, then its own column. */
  function NextCol(addr: nat, newRow: bool, b: Byte): string {
    (if newRow then "\n" + AddressCol(addr) else "") + ByteCol(b)
  }

  /** Up to four bytes make a single further row. */
  lemma MoreRowsOne(addr: nat, c: seq<Byte>)
    requires 1 <= |c| <= 4
    ensures MoreRows(addr, c) == "\n" + AddressCol(addr) + ByteCols(c)
  {
    assert c[..|c|] == c && c[|c|..] == [];
  }

  /** More than four bytes: a full row, then the rest. */
  lemma MoreRowsFull(addr: nat, c: seq<Byte>)
    requires |c| >= 4
    ensures MoreRows(addr, c) == "\n" + AddressCol(addr) + ByteCols(c[..4]) + MoreRows(addr + 4, c[4..])
  {
  }

  lemma ByteColsSnoc(c: seq<Byte>, b: Byte)
    ensures ByteCols(c + [b]) == ByteCols(c) + ByteCol(b)
  {
    assert (c + [b])[..|c|] == c;
  }

  /** MoreRowsSnoc within the first of the further rows. */
  lemma MoreRowsSnocShort(addr: nat, c: seq<Byte>, b: Byte)
    requires |c| < 4
    ensures MoreRows(addr, c + [b]) == MoreRows(addr, c) + NextCol(addr + |c|, |c| % 4 == 0, b)
  {
    FirstColumn(|c|);
    if c == [] {
      MoreRowsStart(addr, b);
    } else {
      MoreRowsExtend(addr, c, b);
    }
  }

  lemma MoreRowsStart(addr: nat, b: Byte)
    ensures MoreRows(addr, [b]) == NextCol(addr, true, b)
  {
    MoreRowsOne(addr, [b]);
    ByteColsSnoc([], b);
    assert [] + [b] == [b];
    assert "" + ByteCol(b) == ByteCol(b);
  }

  lemma MoreRowsExtend(addr: nat, c: seq<Byte>, b: Byte)
    requires 1 <= |c| < 4
    ensures MoreRows(addr, c + [b]) == MoreRows(addr, c) + NextCol(addr + |c|, false, b)
  {
    var cols := ByteCol(b);
    var row := "\n" + AddressCol(addr);
    MoreRowsOne(addr, c + [b]);
    MoreRowsOne(addr, c);
    ByteColsSnoc(c, b);
    Assoc(row, ByteCols(c), cols);
    assert NextCol(addr + |c|, false, b) == "" + cols == cols;
  }

  lemma FirstColumn(n: nat)
    requires n < 4
    ensures (n % 4 == 0) == (n == 0)
  {
  }

  lemma SameColumn(n: nat)
    requires n >= 4
    ensures (n - 4) % 4 == n % 4
  {
  }

  lemma Assoc<T>(a: seq<T>, b: seq<T>, c: seq<T>)
    ensures a + (b + c) == (a + b) + c
  {
  }

  /** MoreRowsSnoc past the first further row, given it for the rest. */
  lemma MoreRowsSnocLong(addr: nat, c: seq<Byte>, b: Byte)
    requires |c| >= 4
    requires MoreRows(addr + 4, c[4..] + [b])
             == MoreRows(addr + 4, c[4..]) + NextCol(addr + |c|, |c| % 4 == 0, b)
    ensures MoreRows(addr, c + [b]) == MoreRows(addr, c) + NextCol(addr + |c|, |c| % 4 == 0, b)
  {
    var cb := c + [b];
    assert cb[..4] == c[..4];
    assert cb[4..] == c[4..] + [b];
    var row := "\n" + AddressCol(addr) + ByteCols(c[..4]);
    MoreRowsFull(addr, c);
    MoreRowsFull(addr, cb);
    Assoc(row, MoreRows(addr + 4, c[4..]), NextCol(addr + |c|, |c| % 4 == 0, b));
  }

  /** Appending a byte to the rows after the first either opens a new row
      (every fourth byte) or extends the last one. */
  lemma {:induction false} MoreRowsSnoc(addr: nat, c: seq<Byte>, b: Byte)
    ensures MoreRows(addr, c + [b]) == MoreRows(addr, c) + NextCol(addr + |c|, |c| % 4 == 0, b)
    decreases |c|
  {
    if |c| < 4 {
      MoreRowsSnocShort(addr, c, b);
    } else {
      MoreRowsSnoc(addr + 4, c[4..], b);
      SameColumn(|c|);
      MoreRowsSnocLong(addr, c, b);
    }
  }

  // One iteration of formatOpStr's first loop, as facts about Shown: the
  // first byte opens the first row, the next three extend it (the fourth
  // followed by the text), and every later byte goes as MoreRows says.

  lemma ShownFirst(addr: nat, bs: seq<Byte>, b: Byte, t: string)
    requires bs == []
    ensures Shown(addr, bs + [b], t) == Shown(addr, bs, t) + AddressCol(addr + |bs|) + ByteCol(b)
  {
    assert bs + [b] == [b];
    assert ByteCols([b]) == ByteCols([]) + ByteCol(b);
    assert "" + AddressCol(addr) == AddressCol(addr);
  }

  lemma ShownInRow(addr: nat, bs: seq<Byte>, b: Byte, t: string)
    requires 1 <= |bs| <= 2
    ensures Shown(addr, bs + [b], t) == Shown(addr, bs, t) + ByteCol(b)
  {
    assert (bs + [b])[..|bs|] == bs;
  }

  lemma ShownFourth(addr: nat, bs: seq<Byte>, b: Byte, t: string)
    requires |bs| == 3
    ensures Shown(addr, bs + [b], t) == Shown(addr, bs, t) + ByteCol(b) + TextCol(t)
  {
    var s := bs + [b];
    assert s[..4] == s && s[..3] == bs && s[4..] == [];
  }

  lemma ShownLater(addr: nat, bs: seq<Byte>, b: Byte, t: string)
    requires |bs| >= 4
    ensures Shown(addr, bs + [b], t) == Shown(addr, bs, t) + NextCol(addr + |bs|, |bs| % 4 == 0, b)
  {
    var s := bs + [b];
    assert s[..4] == bs[..4];
    assert s[4..] == bs[4..] + [b];
    var next := NextCol(addr + |bs|, |bs| % 4 == 0, b);
    MoreRowsSnoc(addr + 4, bs[4..], b);
    SameColumn(|bs|);
    assert MoreRows(addr + 4, bs[4..] + [b]) == MoreRows(addr + 4, bs[4..]) + next;
    var head := AddressCol(addr) + ByteCols(bs[..4]) + TextCol(t);
    assert Shown(addr, s, t) == head + MoreRows(addr + 4, bs[4..] + [b]);
    Assoc(head, MoreRows(addr + 4, bs[4..]), next);
  }

  /** A fifth, ninth, ... byte opens a new row with its address. */
  lemma ShownNewRow(addr: nat, bs: seq<Byte>, b: Byte, t: string)
    requires |bs| >= 4 && |bs| % 4 == 0
    ensures Shown(addr, bs + [b], t) == Shown(addr, bs, t) + "\n" + AddressCol(addr + |bs|) + ByteCol(b)
  {
    ShownLater(addr, bs, b, t);
    var x, y, z := "\n", AddressCol(addr + |bs|), ByteCol(b);
    assert NextCol(addr + |bs|, true, b) == x + y + z;
    Assoc(Shown(addr, bs, t), x + y, z);
    Assoc(Shown(addr, bs, t), x, y);
  }

  lemma ShownSameRow(addr: nat, bs: seq<Byte>, b: Byte, t: string)
    requires |bs| >= 4 && |bs| % 4 != 0
    ensures Shown(addr, bs + [b], t) == Shown(addr, bs, t) + ByteCol(b)
  {
    ShownLater(addr, bs, b, t);
    assert NextCol(addr + |bs|, false, b) == "" + ByteCol(b) == ByteCol(b);
  }

  /** One pass of formatOpStr's first loop over byte b at address pc, the
      i-th byte of the instruction, applied to what has been built so far. */
  function AppendByte(s: string, i: nat, pc: nat, b: Byte, t: string): string {
    var s2 := RowStart(s, i, pc) + ByteCol(b);
    if i == 3 then s2 + TextCol(t) else s2
  }

  /** Every fourth byte starts a row: a line break unless it is the first
      row, then the address column. */
  function RowStart(s: string, i: nat, pc: nat): string {
    if i % 4 == 0 then (if i != 0 then s + "\n" else s) + AddressCol(pc) else s
  }

  /** Pass i of the first loop, over byte b at address pc, turns what the
      passes over bs have built into what they build over bs + [b]. */
  lemma ShownStep(addr: nat, bs: seq<Byte>, b: Byte, t: string, i: nat, pc: nat)
    requires i == |bs| && pc == addr + i
    ensures Shown(addr, bs + [b], t) == AppendByte(Shown(addr, bs, t), i, pc, b, t)
  {
    var s := Shown(addr, bs, t);
    if i == 0 {
      ShownFirst(addr, bs, b, t);
      assert AppendByte(s, i, pc, b, t) == s + AddressCol(pc) + ByteCol(b);
    } else if i <= 2 {
      ShownInRow(addr, bs, b, t);
      assert AppendByte(s, i, pc, b, t) == s + ByteCol(b);
    } else if i == 3 {
      ShownFourth(addr, bs, b, t);
      assert AppendByte(s, i, pc, b, t) == s + ByteCol(b) + TextCol(t);
    } else if i % 4 == 0 {
      ShownNewRow(addr, bs, b, t);
      assert AppendByte(s, i, pc, b, t) == s + "\n" + AddressCol(pc) + ByteCol(b);
    } else {
      ShownSameRow(addr, bs, b, t);
      assert AppendByte(s, i, pc, b, t) == s + ByteCol(b);
    }
  }

  // formatOpStr's second loop completes Shown to the listing: a short
  // first row gets three spaces per missing byte, then a tab and the text;
  // after four or more bytes there is nothing left to add.

  lemma ShownPaddedShort(addr: nat, bs: seq<Byte>, t: string)
    requires |bs| < 4
    ensures Listing(addr, bs, t) == Shown(addr, bs, t) + Repeat(' ', 3 * (4 - |bs|)) + TextCol(t)
  {
    ListingLayout(addr, bs, t);
    if bs == [] {
      assert "" + Repeat(' ', 12) == Repeat(' ', 12);
    } else {
      assert bs[..|bs|] == bs && bs[|bs|..] == [];
      var f := FirstRow(addr, bs, t);
      assert f + "" == f;
    }
  }

  lemma ShownComplete(addr: nat, bs: seq<Byte>, t: string)
    requires |bs| >= 4
    ensures Listing(addr, bs, t) == Shown(addr, bs, t)
  {
    ListingLayout(addr, bs, t);
    var c := AddressCol(addr) + ByteCols(bs[..4]);
    assert Repeat(' ', 0) == "";
    assert c + "" == c;
  }

  /** One pass j of formatOpStr's second loop: three spaces for a missing
      byte column, and after the fourth column the text. */
  function PadPass(s: string, j: nat, t: string): string {
    if j == 3 then s + "   " + TextCol(t) else s + "   "
  }

  /** Passes i..j-1 of the second loop applied to s. */
  function PadPasses(s: string, i: nat, j: nat, t: string): string
    decreases j
  {
    if j <= i then s else PadPass(PadPasses(s, i, j - 1, t), j - 1, t)
  }

  lemma {:induction false} PadSpaces(s: string, i: nat, j: nat, t: string)
    requires i <= j <= 3
    ensures PadPasses(s, i, j, t) == s + Repeat(' ', 3 * (j - i))
    decreases j
  {
    if j == i {
      assert Repeat(' ', 0) == "";
      assert s + "" == s;
    } else {
      PadSpaces(s, i, j - 1, t);
      PadStep(s, j - 1 - i);
    }
  }

  /** The second loop turns the first loop's rows into the listing: it runs
      from the byte count up to four, and not at all after four bytes. */
  lemma PaddedListing(addr: nat, bs: seq<Byte>, t: string)
    ensures Listing(addr, bs, t) == PadPasses(Shown(addr, bs, t), |bs|, if |bs| < 4 then 4 else |bs|, t)
  {
    var n := |bs|;
    var sh := Shown(addr, bs, t);
    if n < 4 {
      PadSpaces(sh, n, 3, t);
      PadStep(sh, 3 - n);
      ShownPaddedShort(addr, bs, t);
    } else {
      ShownComplete(addr, bs, t);
    }
  }

  /** One more pass of the padding loop: three more spaces. */
  lemma PadStep(s: string, k: nat)
    ensures s + Repeat(' ', 3 * k) + "   " == s + Repeat(' ', 3 * (k + 1))
  {
    assert Repeat(' ', 3 * k) + "   " == Repeat(' ', 3 * (k + 1));
    Assoc(s, Repeat(' ', 3 * k), "   ");
  }

  /** Every byte column is two hex digits denoting the byte and a space. */
  lemma {:induction false} ByteColsDenote(bs: seq<Byte>, k: nat)
    requires k < |bs|
    ensures ParseHex(ByteCols(bs)[3 * k..3 * k + 2]) == bs[k]
    ensures ByteCols(bs)[3 * k + 2] == ' '
    decreases |bs|
  {
    var init := bs[..|bs| - 1];
    var last := bs[|bs| - 1];
    Hex2Exact(last);
    var s := ByteCols(bs);
    assert s == ByteCols(init) + ByteCol(last);
    if k < |bs| - 1 {
      ByteColsDenote(init, k);
      assert s[3 * k..3 * k + 2] == ByteCols(init)[3 * k..3 * k + 2];
    } else {
      assert s[3 * k..3 * k + 2] == ByteCol(last)[..2] == Hex2(last);
    }
  }

  /** Newlines in a string: the lines of a listing are one more. */
  function Newlines(s: string): nat {
    if s == [] then 0 else Newlines(s[..|s| - 1]) + (if s[|s| - 1] == '\n' then 1 else 0)
  }

  lemma {:induction false} NewlinesAppend(a: string, b: string)
    ensures Newlines(a + b) == Newlines(a) + Newlines(b)
    decreases |b|
  {
    if b == [] {
      assert a + b == a;
    } else {
      assert (a + b)[..|a + b| - 1] == a + b[..|b| - 1];
      NewlinesAppend(a, b[..|b| - 1]);
    }
  }

  lemma {:induction false} NoNewlines(s: string)
    requires '\n' !in s
    ensures Newlines(s) == 0
    decreases |s|
  {
    if s != [] {
      assert s[|s| - 1] in s;
      NoNewlines(s[..|s| - 1]);
    }
  }

  /** The first row is a single line. */
  lemma FirstRowLines(addr: nat, row: seq<Byte>, t: string)
    requires |row| <= 4 && '\n' !in t
    ensures Newlines(FirstRow(addr, row, t)) == 0
  {
    var f := FirstRow(addr, row, t);
    AddressColOneLine(addr);
    ByteColsOneLine(row);
    assert '\n' !in Repeat(' ', 3 * (4 - |row|));
    assert '\n' !in f;
    NoNewlines(f);
  }

  /** A first row of RowLen(n) bytes leaves ceil(n / 4) - 1 rows. */
  lemma RowCount(n: nat)
    requires n >= 1
    ensures (n - RowLen(n) + 3) / 4 + 1 == (n + 3) / 4
  {
  }

  /** The rows after the first: one line per started group of four bytes. */
  lemma {:induction false} MoreRowsLines(addr: nat, bs: seq<Byte>)
    ensures Newlines(MoreRows(addr, bs)) == (|bs| + 3) / 4
    decreases |bs|
  {
    if bs != [] {
      var h := RowLen(|bs|);
      var rest := bs[h..];
      MoreRowsLines(addr + 4, rest);
      var row := "\n" + AddressCol(addr) + ByteCols(bs[..h]);
      AddressColOneLine(addr);
      ByteColsOneLine(bs[..h]);
      NoNewlines(AddressCol(addr));
      NoNewlines(ByteCols(bs[..h]));
      assert Newlines("\n") == 1;
      NewlinesAppend("\n", AddressCol(addr));
      NewlinesAppend("\n" + AddressCol(addr), ByteCols(bs[..h]));
      assert MoreRows(addr, bs) == row + MoreRows(addr + 4, rest);
      NewlinesAppend(row, MoreRows(addr + 4, rest));
      RowCount(|bs|);
    }
  }

  /** An instruction of n >= 1 bytes takes ceil(n / 4) lines. */
  lemma ListingLines(addr: nat, bs: seq<Byte>, t: string)
    requires bs != [] && '\n' !in t
    ensures Newlines(Listing(addr, bs, t)) + 1 == (|bs| + 3) / 4
  {
    ListingLayout(addr, bs, t);
    var h := RowLen(|bs|);
    var head := FirstRow(addr, bs[..h], t);
    var rest := MoreRows(addr + 4, bs[h..]);
    assert Listing(addr, bs, t) == head + rest;
    FirstRowLines(addr, bs[..h], t);
    MoreRowsLines(addr + 4, bs[h..]);
    NewlinesAppend(head, rest);
    RowCount(|bs|);
  }

  /** The first row: the address right-aligned in four columns, a colon
      and a tab, twelve columns of bytes or padding, then a tab and the
      text. */
  lemma FirstRowColumns(addr: nat, row: seq<Byte>, t: string)
    requires |row| <= 4 && addr < 0x1_0000
    ensures var s := FirstRow(addr, row, t);
      && |s| == 19 + |t|
      && s[..4] == Hex4(addr)
      && s[4..6] == ":\t"
      && s[18..] == "\t" + t
  {
    Hex4Exact(addr);
    var p := AddressCol(addr) + ByteCols(row) + Repeat(' ', 3 * (4 - |row|));
    assert |p| == 18;
    var s := FirstRow(addr, row, t);
    assert s == p + ("\t" + t);
    assert s[..4] == p[..4] == Hex4(addr);
    assert s[4..6] == p[4..6];
  }

  /** The text column is the same for every instruction. */
  lemma ListingColumns(addr: nat, bs: seq<Byte>, t: string)
    requires bs != [] && addr < 0x1_0000
    ensures var s := Listing(addr, bs, t);
      && |s| >= 19 + |t|
      && s[..4] == Hex4(addr)
      && s[4..6] == ":\t"
      && s[18..19 + |t|] == "\t" + t
  {
    ListingLayout(addr, bs, t);
    var h := RowLen(|bs|);
    var f := FirstRow(addr, bs[..h], t);
    FirstRowColumns(addr, bs[..h], t);
    var s := Listing(addr, bs, t);
    assert s == f + MoreRows(addr + 4, bs[h..]);
    assert s[..4] == f[..4];
    assert s[4..6] == f[4..6];
    assert s[18..19 + |t|] == f[18..];
  }
}
