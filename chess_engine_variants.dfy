/** The chess-variants engine: a material count over the 64 squares (pawn 1,
  * knight and bishop 3, rook 5, queen 9, king 0, white adding and black
  * subtracting), and a move simulator that picks a variant's board, plays a
  * move given in SAN and reports the position. The chess library itself
  * (parsing SAN, executing a move, listing legal moves, writing FEN, the
  * state of a new board beside its pieces) is a parameter. */
module ChessEngineVariants {

  datatype Option<T> = None | Some(value: T)

  datatype Color = White | Black
  datatype Kind = Pawn | Knight | Bishop | Rook | Queen | King
  datatype Piece = Piece(kind: Kind, color: Color)
  datatype Square = Empty | Occupied(piece: Piece)

  /** The 64 squares, a1 = 0, b1 = 1, ..., h8 = 63. */
  type Squares = s: seq<Square> | |s| == 64 witness seq(64, i => Empty)

  /** A move as the library encodes it. */
  datatype Move = Move(from: nat, to: nat, promotion: Option<Kind>, drop: Option<Kind>)

  /** The rules a board follows: `chess.Board`, `CrazyhouseBoard` or
    * `SuicideBoard`. */
  datatype Rules = Standard | Crazyhouse | Suicide

  /** What the library keeps beside the squares: the side to move, the
    * crazyhouse pockets (empty in the other games), and the castling rights,
    * en passant square and move clocks as the library encodes them. */
  datatype Extra = Extra(whiteToMove: bool, pockets: seq<Piece>, details: seq<int>)

  /** A position: its rules, what stands on each square, the rest of the
    * library's state, and the moves pushed so far. */
  datatype Board = Board(rules: Rules, squares: Squares, extra: Extra, moveStack: seq<Move>)

  /** The chess library: the state of a new board of each kind beside its
    * pieces, SAN parsing (`None` where `parse_san` raises), where the pieces
    * stand after a move and what else the move changes, the SAN of every
    * legal move, and FEN. Each of these sees the board's rules, so a
    * crazyhouse FEN can carry its pockets and suicide can force captures. */
  datatype ChessLib = ChessLib(
    startExtra: Rules -> Extra,
    parseSan: (Board, string) -> Option<Move>,
    place: (Board, Move) -> Squares,
    carry: (Board, Move) -> Extra,
    legalSans: Board -> seq<string>,
    fen: Board -> string)

  /** `board.push(move)`: the rules stay, the move is stacked. */
  function Push(lib: ChessLib, board: Board, m: Move): (after: Board)
    ensures after.rules == board.rules
    ensures after.moveStack == board.moveStack + [m]
  {
    Board(board.rules, lib.place(board, m), lib.carry(board, m), board.moveStack + [m])
  }

  /** The `piece_values` table. */
  function PieceValue(kind: Kind): int {
    match kind
    case Pawn => 1
    case Knight => 3
    case Bishop => 3
    case Rook => 5
    case Queen => 9
    case King => 0
  }

  /** What one square adds to the score. */
  function Contribution(sq: Square): int {
    match sq
    case Empty => 0
    case Occupied(p) => if p.color == White then PieceValue(p.kind) else -PieceValue(p.kind)
  }

  /** The material balance of a run of squares. */
  function Material(s: seq<Square>): int
    decreases |s|
  {
    if |s| == 0 then 0 else Material(s[..|s| - 1]) + Contribution(s[|s| - 1])
  }

  lemma {:induction false} MaterialAppend(a: seq<Square>, b: seq<Square>)
    ensures Material(a + b) == Material(a) + Material(b)
    decreases |b|
  {
    if |b| == 0 {
      assert a + b == a;
    } else {
      var n := |b| - 1;
      assert (a + b)[..|a + b| - 1] == a + b[..n];
      assert (a + b)[|a + b| - 1] == b[n];
      MaterialAppend(a, b[..n]);
    }
  }

  /** A board without pieces scores 0. */
  lemma {:induction false} MaterialOfEmpty(s: seq<Square>)
    requires forall i :: 0 <= i < |s| ==> s[i] == Empty
    ensures Material(s) == 0
    decreases |s|
  {
    if |s| > 0 {
      MaterialOfEmpty(s[..|s| - 1]);
    }
  }

  lemma MaterialStep(s: seq<Square>, k: nat)
    requires 0 < k <= |s|
    ensures Material(s[..k]) == Material(s[..k - 1]) + Contribution(s[k - 1])
  {
    assert s[..k][..k - 1] == s[..k - 1];
  }

  /** A rank of eight squares scores the sum of its squares. */
  lemma MaterialOfRank(s: seq<Square>)
    requires |s| == 8
    ensures Material(s) == Contribution(s[0]) + Contribution(s[1]) + Contribution(s[2]) + Contribution(s[3])
                         + Contribution(s[4]) + Contribution(s[5]) + Contribution(s[6]) + Contribution(s[7])
  {
    assert s[..0] == [];
    MaterialStep(s, 1);
    MaterialStep(s, 2);
    MaterialStep(s, 3);
    MaterialStep(s, 4);
    MaterialStep(s, 5);
    MaterialStep(s, 6);
    MaterialStep(s, 7);
    MaterialStep(s, 8);
    assert s[..8] == s;
  }

  function Swap(sq: Square): Square {
    match sq
    case Empty => Empty
    case Occupied(p) => Occupied(Piece(p.kind, if p.color == White then Black else White))
  }

  /** Every piece with its colour swapped. */
  function SwapColours(s: seq<Square>): (t: seq<Square>)
    ensures |t| == |s|
  {
    seq(|s|, i requires 0 <= i < |s| => Swap(s[i]))
  }

  /** Swapping every piece's colour negates the evaluation. */
  lemma {:induction false} SwapNegates(s: seq<Square>)
    ensures Material(SwapColours(s)) == -Material(s)
    decreases |s|
  {
    if |s| > 0 {
      var n := |s| - 1;
      assert SwapColours(s)[..n] == SwapColours(s[..n]);
      SwapNegates(s[..n]);
    }
  }

  /** Replacing one square changes the score by the difference of the two contributions. */
  lemma MaterialUpdate(s: seq<Square>, i: nat, x: Square)
    requires i < |s|
    ensures Material(s[i := x]) == Material(s) - Contribution(s[i]) + Contribution(x)
  {
    assert s == s[..i] + [s[i]] + s[i + 1..];
    assert s[i := x] == s[..i] + [x] + s[i + 1..];
    MaterialAppend(s[..i] + [s[i]], s[i + 1..]);
    MaterialAppend(s[..i] + [x], s[i + 1..]);
    MaterialAppend(s[..i], [s[i]]);
    MaterialAppend(s[..i], [x]);
    assert Material([s[i]]) == Contribution(s[i]) by { assert [s[i]][..0] == []; }
    assert Material([x]) == Contribution(x) by { assert [x][..0] == []; }
  }

  /** A piece moved from one square to another. */
  function Relocate(s: Squares, from: nat, to: nat): (t: Squares)
    requires from < 64 && to < 64
    ensures t[to] == (if from == to then Empty else s[from])
    ensures t[from] == Empty
    ensures forall i :: 0 <= i < 64 && i != from && i != to ==> t[i] == s[i]
  {
    s[to := s[from]][from := Empty]
  }

  /** A move onto an empty square (no capture) leaves the material unchanged. */
  lemma QuietMoveKeepsMaterial(s: Squares, from: nat, to: nat)
    requires from < 64 && to < 64 && from != to && s[to] == Empty
    ensures Material(Relocate(s, from, to)) == Material(s)
  {
    MaterialUpdate(s, to, s[from]);
    MaterialUpdate(s[to := s[from]], from, Empty);
  }

  function Back(c: Color): seq<Square> {
    [Occupied(Piece(Rook, c)), Occupied(Piece(Knight, c)), Occupied(Piece(Bishop, c)), Occupied(Piece(Queen, c)),
     Occupied(Piece(King, c)), Occupied(Piece(Bishop, c)), Occupied(Piece(Knight, c)), Occupied(Piece(Rook, c))]
  }

  function Pawns(c: Color): seq<Square> {
    seq(8, i => Occupied(Piece(Pawn, c)))
  }

  /** The standard starting position. */
  function Start(): (s: Squares)
    ensures s[12] == Occupied(Piece(Pawn, White)) && s[28] == Empty
  {
    Back(White) + Pawns(White) + seq(32, i => Empty) + Pawns(Black) + Back(Black)
  }

  /** The starting position is balanced. */
  lemma StartBalanced()
    ensures Material(Start()) == 0
  {
    var empty := seq(32, i => Empty);
    MaterialAppend(Back(White) + Pawns(White) + empty + Pawns(Black), Back(Black));
    MaterialAppend(Back(White) + Pawns(White) + empty, Pawns(Black));
    MaterialAppend(Back(White) + Pawns(White), empty);
    MaterialAppend(Back(White), Pawns(White));
    MaterialOfEmpty(empty);
    MaterialOfRank(Back(White));
    MaterialOfRank(Back(Black));
    MaterialOfRank(Pawns(White));
    MaterialOfRank(Pawns(Black));
    assert Material(Back(White)) == 31;
    assert Material(Back(Black)) == -31;
    assert Material(Pawns(White)) == 8;
    assert Material(Pawns(Black)) == -8;
  }

  /** After 1. e4 (e2 = 12 to e4 = 28) the position is still balanced. */
  lemma E4Balanced()
    ensures Material(Relocate(Start(), 12, 28)) == 0
  {
    StartBalanced();
    QuietMoveKeepsMaterial(Start(), 12, 28);
  }

  /** A new board of a kind: all three games start from the usual
    * arrangement, with the library's own state for that game. */
  function NewBoard(lib: ChessLib, rules: Rules): (b: Board)
    ensures b.rules == rules && b.moveStack == []
  {
    Board(rules, Start(), lib.startExtra(rules), [])
  }

  /** The three new boards hold the same pieces, balanced, but are three
    * different boards: their rules differ. */
  lemma NewBoardsDiffer(lib: ChessLib)
    ensures NewBoard(lib, Standard).squares == NewBoard(lib, Crazyhouse).squares == NewBoard(lib, Suicide).squares
    ensures Material(NewBoard(lib, Standard).squares) == 0
    ensures NewBoard(lib, Standard) != NewBoard(lib, Crazyhouse)
    ensures NewBoard(lib, Standard) != NewBoard(lib, Suicide)
    ensures NewBoard(lib, Crazyhouse) != NewBoard(lib, Suicide)
  {
    StartBalanced();
  }

  const BalancedAbundance := "balanced_abundance"
  const MercyAdjusted := "mercy_adjusted"
  const InvalidMove := "Invalid move for variant"

  /** The dictionary `simulate_variant_move` returns. */
  datatype MoveResult =
    | Error(error: string)
    | Outcome(variant: string, fen: string, legalMoves: seq<string>, evalScore: int, thrivingStatus: string)

  /** `legal_moves[:5]`. */
  function TopFive(xs: seq<string>): seq<string> {
    if |xs| <= 5 then xs else xs[..5]
  }

  function Status(score: int): string {
    if score == 0 then BalancedAbundance else MercyAdjusted
  }

  /** The variant names with a board of their own; any other name plays on
    * the engine's standard board itself. */
  predicate Known(variant: string) {
    variant == "standard" || variant == "crazyhouse" || variant == "suicide"
  }

  /** The board `boards.get(variant, self.standard_board)` selects. */
  function Chosen(lib: ChessLib, variant: string, standard: Board, crazyhouse: Board): Board {
    if variant == "crazyhouse" then crazyhouse
    else if variant == "suicide" then NewBoard(lib, Suicide)
    else standard
  }

  /** With the engine's boards following their own rules, "crazyhouse" plays
    * by crazyhouse rules, "suicide" by suicide rules on a new board, and any
    * other name by the standard rules. */
  lemma ChosenRules(lib: ChessLib, variant: string, standard: Board, crazyhouse: Board)
    requires standard.rules == Standard && crazyhouse.rules == Crazyhouse
    ensures Chosen(lib, variant, standard, crazyhouse).rules ==
      (if variant == "crazyhouse" then Crazyhouse else if variant == "suicide" then Suicide else Standard)
    ensures variant == "suicide" ==> Chosen(lib, variant, standard, crazyhouse) == NewBoard(lib, Suicide)
  {
  }

  /** The reply to a move on a board. */
  function Respond(lib: ChessLib, board: Board, variant: string, san: string): MoveResult {
    match lib.parseSan(board, san)
    case None => Error(InvalidMove)
    case Some(m) =>
      var after := Push(lib, board, m);
      var score := Material(after.squares);
      Outcome(variant, lib.fen(after), TopFive(lib.legalSans(after)), score, Status(score))
  }

  /** The board after the move, when it parses. */
  function Played(lib: ChessLib, board: Board, san: string): Board {
    match lib.parseSan(board, san)
    case None => board
    case Some(m) => Push(lib, board, m)
  }

  /** The reply is an error exactly when the move does not parse; otherwise it
    * reports the position after the move, at most five of its legal moves
    * (the first ones, in order), its material, and "balanced_abundance"
    * exactly when the material is 0. */
  lemma RespondMeaning(lib: ChessLib, board: Board, variant: string, san: string)
    ensures var r := Respond(lib, board, variant, san);
      && (r.Error? <==> lib.parseSan(board, san).None?)
      && (r.Error? ==> r.error == InvalidMove)
      && (r.Outcome? ==>
            var after := Played(lib, board, san);
            && after.rules == board.rules
            && after.moveStack == board.moveStack + [lib.parseSan(board, san).value]
            && r.variant == variant
            && r.fen == lib.fen(after)
            && |r.legalMoves| <= 5
            && r.legalMoves <= lib.legalSans(after)
            && (|lib.legalSans(after)| >= 5 ==> |r.legalMoves| == 5)
            && r.evalScore == Material(after.squares)
            && (r.thrivingStatus == BalancedAbundance <==> r.evalScore == 0))
  {
  }

  /** A library whose standard game starts from the usual position and plays
    * e4 as the pawn from e2 to e4. */
  predicate PlaysE4(lib: ChessLib) {
    && lib.parseSan(NewBoard(lib, Standard), "e4") == Some(Move(12, 28, None, None))
    && lib.place(NewBoard(lib, Standard), Move(12, 28, None, None)) == Relocate(Start(), 12, 28)
  }

  /** e4 on the standard board evaluates to 0 and is "balanced_abundance". */
  lemma E4Outcome(lib: ChessLib)
    requires PlaysE4(lib)
    ensures var r := Respond(lib, NewBoard(lib, Standard), "standard", "e4");
      r.Outcome? && r.evalScore == 0 && r.thrivingStatus == BalancedAbundance
  {
    E4Balanced();
  }

  class Engine {
    var standardBoard: Board
    var crazyhouseBoard: Board
    var evalCache: map<string, int>

    constructor(lib: ChessLib)
      ensures standardBoard == NewBoard(lib, Standard) && crazyhouseBoard == NewBoard(lib, Crazyhouse)
      ensures evalCache == map[]
    {
      standardBoard := NewBoard(lib, Standard);
      crazyhouseBoard := NewBoard(lib, Crazyhouse);
      evalCache := map[];
    }

    /** `simple_minimax_eval`: the material balance, whatever the depth. */
    method SimpleMinimaxEval(board: Board, depth: int) returns (score: int)
      ensures score == Material(board.squares)
    {
      score := 0;
      for square := 0 to 64
        invariant score == Material(board.squares[..square])
      {
        assert board.squares[..square + 1][..square] == board.squares[..square];
        var sq := board.squares[square];
        if sq.Occupied? {
          var value := PieceValue(sq.piece.kind);
          score := score + (if sq.piece.color == White then value else -value);
        }
      }
      assert board.squares[..64] == board.squares;
    }

    /** `simulate_variant_move`: "standard" and "crazyhouse" play on copies and
      * "suicide" on a fresh board, leaving the engine as it was; any other
      * name plays on the engine's own standard board, which keeps the move. */
    method SimulateVariantMove(lib: ChessLib, variant: string, san: string) returns (r: MoveResult)
      modifies this
      ensures r == Respond(lib, Chosen(lib, variant, old(standardBoard), old(crazyhouseBoard)), variant, san)
      ensures standardBoard == (if Known(variant) then old(standardBoard) else Played(lib, old(standardBoard), san))
      ensures standardBoard.rules == old(standardBoard).rules
      ensures crazyhouseBoard == old(crazyhouseBoard) && evalCache == old(evalCache)
    {
      var board := Chosen(lib, variant, standardBoard, crazyhouseBoard);
      var parsed := lib.parseSan(board, san);
      if parsed.None? {
        return Error(InvalidMove);
      }
      board := Push(lib, board, parsed.value);
      if !Known(variant) {
        standardBoard := board;
      }
      var legalMoves := lib.legalSans(board);
      var evalScore := SimpleMinimaxEval(board, 3);
      r := Outcome(variant, lib.fen(board), TopFive(legalMoves), evalScore,
                   if evalScore == 0 then BalancedAbundance else MercyAdjusted);
    }
  }
}
