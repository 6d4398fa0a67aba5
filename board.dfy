/** board.py: the 8×8 Othello board, its opening position and its text
    encoding (rows of tile characters joined by `|`). */
module Boards {
  import opened Wrappers
  import Builtins

  const BoardSize: nat := 8
  const RowSeparator: char := '|'

  /** The content of one cell; each value is encoded by one character. */
  datatype Tile = Empty | Black | White {
    /** `Tile.value`: a tile character, never the row separator, and each
        character names a single tile. */
    function Char(): (ch: char)
      ensures ch != RowSeparator
      ensures ch == '.' <==> this == Empty
      ensures ch == 'B' <==> this == Black
      ensures ch == 'W' <==> this == White
    {
      match this
      case Empty => '.'
      case Black => 'B'
      case White => 'W'
    }
  }

  /** `Tile(c)`: the tile encoded by `c`; None where Python raises ValueError. */
  function TileOf(c: char): (t: Option<Tile>)
    ensures t.Some? <==> c == '.' || c == 'B' || c == 'W'
    ensures t.Some? ==> t.value.Char() == c
  {
    if c == '.' then Some(Empty)
    else if c == 'B' then Some(Black)
    else if c == 'W' then Some(White)
    else None
  }

  /** The three tiles have distinct characters, and each character decodes
      back to its tile. */
  lemma TileEncoding(a: Tile, b: Tile)
    ensures TileOf(a.Char()) == Some(a)
    ensures a.Char() == b.Char() <==> a == b
    ensures a.Char() != RowSeparator
  {
  }

  /** The cells, row by row; `g[r][c]` is row r, column c. */
  type Grid = seq<seq<Tile>>

  predicate IsGrid(g: Grid)
  {
    |g| == BoardSize && forall r :: 0 <= r < |g| ==> |g[r]| == BoardSize
  }

  /** The standard opening: White on the (3,3)-(4,4) diagonal, Black on the
      other, every other cell empty. */
  function OpeningTile(r: int, c: int): Tile
  {
    if (r == 3 && c == 3) || (r == 4 && c == 4) then White
    else if (r == 3 && c == 4) || (r == 4 && c == 3) then Black
    else Empty
  }

  function Opening(): (g: Grid)
    ensures IsGrid(g)
    ensures forall r, c :: 0 <= r < BoardSize && 0 <= c < BoardSize ==> g[r][c] == OpeningTile(r, c)
  {
    seq(BoardSize, r => seq(BoardSize, c => OpeningTile(r, c)))
  }

  // ---------------------------------------------------------------------
  // serialize

  function RowText(row: seq<Tile>): (s: string)
    ensures |s| == |row|
    ensures forall c :: 0 <= c < |row| ==> s[c] == row[c].Char()
  {
    seq(|row|, c requires 0 <= c < |row| => row[c].Char())
  }

  function RowTexts(g: Grid): (rows: seq<string>)
    requires IsGrid(g)
    ensures |rows| == BoardSize
    ensures forall r :: 0 <= r < BoardSize ==> rows[r] == RowText(g[r])
  {
    seq(BoardSize, r requires 0 <= r < BoardSize => RowText(g[r]))
  }

  lemma {:induction false} JoinedRowsLayout(rows: seq<string>)
    requires |rows| > 0
    requires forall i :: 0 <= i < |rows| ==> |rows[i]| == BoardSize
    ensures |Builtins.Join(rows, RowSeparator)| == 9 * |rows| - 1
    ensures forall k :: 0 <= k < 9 * |rows| - 1 ==>
      Builtins.Join(rows, RowSeparator)[k] == if k % 9 == 8 then RowSeparator else rows[k / 9][k % 9]
  {
    if |rows| > 1 {
      JoinedRowsLayout(rows[1..]);
      var s := Builtins.Join(rows, RowSeparator);
      var t := Builtins.Join(rows[1..], RowSeparator);
      assert s == rows[0] + [RowSeparator] + t;
      forall k | 0 <= k < 9 * |rows| - 1
        ensures s[k] == if k % 9 == 8 then RowSeparator else rows[k / 9][k % 9]
      {
        if k >= 9 {
          assert s[k] == t[k - 9];
          assert (k - 9) % 9 == k % 9 && (k - 9) / 9 == k / 9 - 1;
        }
      }
    }
  }

  /** The text of `Board.serialize`: eight rows of eight tile characters
      joined by `|`, so 71 characters with cell (r, c) at index 9r + c. */
  function Encode(g: Grid): (s: string)
    requires IsGrid(g)
    ensures |s| == 71
    ensures forall k :: 0 <= k < |s| ==>
      s[k] == if k % 9 == 8 then RowSeparator else g[k / 9][k % 9].Char()
  {
    JoinedRowsLayout(RowTexts(g));
    Builtins.Join(RowTexts(g), RowSeparator)
  }

  // ---------------------------------------------------------------------
  // deserialize

  /** Which exception `board._board[r][c] = Tile(tile)` raises. */
  datatype ErrorKind =
    | InvalidTile        // ValueError from Tile(tile)
    | RowOutOfRange      // IndexError from _board[r]
    | ColumnOutOfRange   // IndexError from _board[r][c] = ...

  /** The exception, with the row and column the loop had reached. */
  datatype DecodeError = DecodeError(kind: ErrorKind, row: nat, col: nat)

  /** Character `ch`, found at row r and column c of the text, can be written
      into the board. */
  predicate Placeable(ch: char, r: nat, c: nat)
  {
    TileOf(ch).Some? && r < BoardSize && c < BoardSize
  }

  /** The exception raised for a character that cannot be written: the
      right-hand side `Tile(tile)` is evaluated first, then the row index,
      then the column index. */
  function Fault(ch: char, r: nat, c: nat): ErrorKind
  {
    if TileOf(ch).None? then InvalidTile
    else if r >= BoardSize then RowOutOfRange
    else ColumnOutOfRange
  }

  /** The characters of `row` in columns lo..hi-1 can be written into row r. */
  predicate RowFits(row: string, r: nat, lo: nat, hi: nat)
    requires hi <= |row|
  {
    forall j :: lo <= j < hi ==> Placeable(row[j], r, j)
  }

  /** Every character of the rows lo..hi-1 can be written. */
  predicate RowsFit(rows: seq<string>, lo: nat, hi: nat)
    requires hi <= |rows|
  {
    forall i :: lo <= i < hi ==> RowFits(rows[i], i, 0, |rows[i]|)
  }

  /** `g` with the tiles of `row`, from column c on, written into row r. */
  function Overlay(g: Grid, r: nat, row: string, c: nat): (h: Grid)
    requires IsGrid(g) && c <= |row| && RowFits(row, r, c, |row|)
    ensures IsGrid(h)
  {
    seq(BoardSize, i requires 0 <= i < BoardSize =>
      seq(BoardSize, j requires 0 <= j < BoardSize =>
        if i == r && c <= j < |row| then TileOf(row[j]).value else g[i][j]))
  }

  /** `g` with the tiles of the rows from row r on written in. */
  function OverlayRows(g: Grid, rows: seq<string>, r: nat): (h: Grid)
    requires IsGrid(g) && r <= |rows| && RowsFit(rows, r, |rows|)
    ensures IsGrid(h)
  {
    seq(BoardSize, i requires 0 <= i < BoardSize =>
      seq(BoardSize, j requires 0 <= j < BoardSize =>
        if r <= i < |rows| && j < |rows[i]| then TileOf(rows[i][j]).value else g[i][j]))
  }

  lemma OverlayStep(g: Grid, r: nat, row: string, c: nat, t: Tile)
    requires IsGrid(g) && c < |row| && RowFits(row, r, c, |row|)
    requires TileOf(row[c]) == Some(t)
    ensures r < BoardSize && c < BoardSize
    ensures Overlay(g[r := g[r][c := t]], r, row, c + 1) == Overlay(g, r, row, c)
  {
    assert Placeable(row[c], r, c);
    var next := g[r := g[r][c := t]];
    var a := Overlay(next, r, row, c + 1);
    var b := Overlay(g, r, row, c);
    forall i | 0 <= i < BoardSize ensures a[i] == b[i] {
      forall j | 0 <= j < BoardSize ensures a[i][j] == b[i][j] {}
    }
  }

  lemma OverlayRowsStep(g: Grid, rows: seq<string>, r: nat)
    requires IsGrid(g) && r < |rows| && RowsFit(rows, r, |rows|)
    ensures RowFits(rows[r], r, 0, |rows[r]|)
    ensures OverlayRows(Overlay(g, r, rows[r], 0), rows, r + 1) == OverlayRows(g, rows, r)
  {
    var a := OverlayRows(Overlay(g, r, rows[r], 0), rows, r + 1);
    var b := OverlayRows(g, rows, r);
    forall i | 0 <= i < BoardSize ensures a[i] == b[i] {
      forall j | 0 <= j < BoardSize ensures a[i][j] == b[i][j] {}
    }
  }

  /** The inner loop of `deserialize` from column c on: writes the tiles of
      `row` into row r of `g`, or stops at the first character that cannot be
      written. */
  function ApplyRow(g: Grid, r: nat, row: string, c: nat): (res: Result<Grid, DecodeError>)
    requires IsGrid(g) && c <= |row|
    ensures res.Ok? <==> RowFits(row, r, c, |row|)
    ensures res.Ok? ==> res.value == Overlay(g, r, row, c)
    ensures res.Err? ==>
      var e := res.error;
      e.row == r && c <= e.col < |row| && RowFits(row, r, c, e.col) &&
      !Placeable(row[e.col], r, e.col) && e.kind == Fault(row[e.col], r, e.col)
    decreases |row| - c
  {
    if c == |row| then
      var h := Overlay(g, r, row, c);
      assert h == g by {
        forall i | 0 <= i < BoardSize ensures h[i] == g[i] {}
      }
      Ok(g)
    else match TileOf(row[c])
      case None => Err(DecodeError(InvalidTile, r, c))
      case Some(t) =>
        if r >= BoardSize then Err(DecodeError(RowOutOfRange, r, c))
        else if c >= BoardSize then Err(DecodeError(ColumnOutOfRange, r, c))
        else
          var next := g[r := g[r][c := t]];
          assert IsGrid(next);
          var rest := ApplyRow(next, r, row, c + 1);
          assert RowFits(row, r, c, |row|) <==> RowFits(row, r, c + 1, |row|) by {
            assert Placeable(row[c], r, c);
          }
          if rest.Ok? then
            OverlayStep(g, r, row, c, t);
            rest
          else
            assert RowFits(row, r, c, rest.error.col) by {
              assert Placeable(row[c], r, c);
            }
            rest
  }

  /** The outer loop of `deserialize` from row r on. */
  function ApplyRows(g: Grid, rows: seq<string>, r: nat): (res: Result<Grid, DecodeError>)
    requires IsGrid(g) && r <= |rows|
    ensures res.Ok? <==> RowsFit(rows, r, |rows|)
    ensures res.Ok? ==> res.value == OverlayRows(g, rows, r)
    ensures res.Err? ==>
      var e := res.error;
      r <= e.row < |rows| && e.col < |rows[e.row]| &&
      RowsFit(rows, r, e.row) && RowFits(rows[e.row], e.row, 0, e.col) &&
      !Placeable(rows[e.row][e.col], e.row, e.col) && e.kind == Fault(rows[e.row][e.col], e.row, e.col)
    decreases |rows| - r
  {
    if r == |rows| then
      var h := OverlayRows(g, rows, r);
      assert h == g by {
        forall i | 0 <= i < BoardSize ensures h[i] == g[i] {}
      }
      Ok(g)
    else match ApplyRow(g, r, rows[r], 0)
      case Err(e) =>
        assert !RowsFit(rows, r, |rows|) by {
          assert !RowFits(rows[r], r, 0, |rows[r]|);
        }
        Err(e)
      case Ok(h) =>
        var rest := ApplyRows(h, rows, r + 1);
        assert RowsFit(rows, r, |rows|) <==> RowsFit(rows, r + 1, |rows|) by {
          assert RowFits(rows[r], r, 0, |rows[r]|);
        }
        if rest.Ok? then
          OverlayRowsStep(g, rows, r);
          rest
        else
          assert RowsFit(rows, r, rest.error.row) by {
            assert RowFits(rows[r], r, 0, |rows[r]|);
          }
          rest
  }

  /** `Board.deserialize`: starts from the opening board and overwrites cell
      (r, c) with the tile of the c-th character of the r-th `|`-separated
      row. It fails exactly when some character is not a tile character or
      lies outside the 8×8 board, and then with the exception of the first
      such character in reading order; cells the text does not reach keep
      their opening tile. */
  function Decode(s: string): (res: Result<Grid, DecodeError>)
    ensures var rows := Builtins.Split(s, RowSeparator);
      res.Ok? <==> RowsFit(rows, 0, |rows|)
    ensures var rows := Builtins.Split(s, RowSeparator);
      res.Ok? ==> res.value == OverlayRows(Opening(), rows, 0)
    ensures var rows := Builtins.Split(s, RowSeparator);
      res.Err? ==>
        var e := res.error;
        e.row < |rows| && e.col < |rows[e.row]| &&
        RowsFit(rows, 0, e.row) && RowFits(rows[e.row], e.row, 0, e.col) &&
        !Placeable(rows[e.row][e.col], e.row, e.col) && e.kind == Fault(rows[e.row][e.col], e.row, e.col)
  {
    ApplyRows(Opening(), Builtins.Split(s, RowSeparator), 0)
  }

  /** `deserialize(serialize(b))` has the cells of `b`. */
  lemma {:induction false} DecodeEncode(g: Grid)
    requires IsGrid(g)
    ensures Decode(Encode(g)) == Ok(g)
  {
    var rows := RowTexts(g);
    forall i | 0 <= i < |rows| ensures RowSeparator !in rows[i] {
      forall c | 0 <= c < |rows[i]| ensures rows[i][c] != RowSeparator {
        TileEncoding(g[i][c], g[i][c]);
      }
    }
    Builtins.SplitJoin(rows, RowSeparator);
    assert Builtins.Split(Encode(g), RowSeparator) == rows;
    assert RowsFit(rows, 0, |rows|) by {
      forall i | 0 <= i < |rows| ensures RowFits(rows[i], i, 0, |rows[i]|) {
        forall j | 0 <= j < |rows[i]| ensures Placeable(rows[i][j], i, j) {
          TileEncoding(g[i][j], g[i][j]);
        }
      }
    }
    var h := OverlayRows(Opening(), rows, 0);
    forall i | 0 <= i < BoardSize ensures h[i] == g[i] {
      forall j | 0 <= j < BoardSize ensures h[i][j] == g[i][j] {
        TileEncoding(g[i][j], g[i][j]);
      }
    }
    assert h == g;
  }

  /** A text of eight full rows that deserializes is exactly the
      serialization of the board it gives. */
  lemma {:induction false} EncodeDecode(s: string)
    requires Decode(s).Ok?
    requires var rows := Builtins.Split(s, RowSeparator);
      |rows| == BoardSize && forall i :: 0 <= i < BoardSize ==> |rows[i]| == BoardSize
    ensures Encode(Decode(s).value) == s
  {
    var rows := Builtins.Split(s, RowSeparator);
    var g := Decode(s).value;
    forall i | 0 <= i < BoardSize ensures RowTexts(g)[i] == rows[i] {
      forall j | 0 <= j < BoardSize ensures RowTexts(g)[i][j] == rows[i][j] {
        assert Placeable(rows[i][j], i, j);
      }
    }
    assert RowTexts(g) == rows;
    Builtins.JoinSplit(s, RowSeparator);
  }

  /** A text with no separator and fewer than eight characters only
      overwrites the start of row 0; the rest of the board keeps its opening
      tiles. */
  lemma ShortTextKeepsOpening(s: string)
    requires |s| <= BoardSize && forall k :: 0 <= k < |s| ==> TileOf(s[k]).Some?
    ensures Decode(s).Ok?
    ensures forall i, j :: 0 <= i < BoardSize && 0 <= j < BoardSize && (i > 0 || j >= |s|) ==>
      Decode(s).value[i][j] == OpeningTile(i, j)
  {
    Builtins.SplitPiece(s, RowSeparator);
  }

  // ---------------------------------------------------------------------
  // the Board object

  /** `Board`: owns its cells, a list of eight lists of eight tiles. */
  class Board {
    var cells: Grid

    ghost predicate Valid()
      reads this
    {
      IsGrid(cells)
    }

    /** `Board.__init__`: the opening position. */
    constructor()
      ensures Valid() && cells == Opening()
      ensures forall r, c :: 0 <= r < BoardSize && 0 <= c < BoardSize ==> cells[r][c] == OpeningTile(r, c)
    {
      var row := seq(BoardSize, _ => Empty);
      cells := seq(BoardSize, _ => row);
      new;
      cells := cells[3 := cells[3][3 := White]];
      cells := cells[3 := cells[3][4 := Black]];
      cells := cells[4 := cells[4][3 := Black]];
      cells := cells[4 := cells[4][4 := White]];
      forall r | 0 <= r < BoardSize ensures cells[r] == Opening()[r] {
        assert forall c :: 0 <= c < BoardSize ==> cells[r][c] == Opening()[r][c];
      }
    }

    /** `Board.serialize`: eight rows of eight tile characters joined by
        `|`, with cell (r, c) at index 9r + c; deserializing the text gives
        these cells back. */
    function Serialize(): (s: string)
      reads this
      requires Valid()
      ensures s == Encode(cells)
      ensures |s| == 71
      ensures forall k :: 0 <= k < |s| ==>
        s[k] == if k % 9 == 8 then RowSeparator else cells[k / 9][k % 9].Char()
      ensures Decode(s) == Ok(cells)
    {
      DecodeEncode(cells);
      Encode(cells)
    }

    /** `Board.deserialize`: a fresh opening board overwritten cell by cell;
        the result is the one Decode describes. */
    static method Deserialize(s: string) returns (res: Result<Board, DecodeError>)
      ensures res.Ok? <==> Decode(s).Ok?
      ensures res.Ok? ==> fresh(res.value) && res.value.Valid() && res.value.cells == Decode(s).value
      ensures res.Err? ==> res.error == Decode(s).error
    {
      var board := new Board();
      var rows := Builtins.Split(s, RowSeparator);
      var r := 0;
      while r < |rows|
        invariant 0 <= r <= |rows|
        invariant fresh(board) && board.Valid()
        invariant ApplyRows(board.cells, rows, r) == Decode(s)
      {
        var tiles := rows[r];
        ghost var start := board.cells;
        var c := 0;
        while c < |tiles|
          invariant 0 <= c <= |tiles|
          invariant board.Valid()
          invariant ApplyRow(board.cells, r, tiles, c) == ApplyRow(start, r, tiles, 0)
        {
          var tile := TileOf(tiles[c]);
          if tile.None? || r >= BoardSize || c >= BoardSize {
            var e := DecodeError(Fault(tiles[c], r, c), r, c);
            assert ApplyRow(start, r, tiles, 0) == Err(e);
            assert ApplyRows(start, rows, r) == Err(e);
            return Err(e);
          }
          ghost var before := board.cells;
          board.cells := board.cells[r := board.cells[r][c := tile.value]];
          assert ApplyRow(before, r, tiles, c) == ApplyRow(board.cells, r, tiles, c + 1);
          c := c + 1;
        }
        assert ApplyRow(start, r, tiles, 0) == Ok(board.cells);
        assert ApplyRows(start, rows, r) == ApplyRows(board.cells, rows, r + 1);
        r := r + 1;
      }
      return Ok(board);
    }

    /** `Board.winner`: win conditions are not checked, so the game is never
        reported as won. */
    function Winner(): (w: Tile)
      ensures w == Empty
    {
      Empty
    }
  }
}
