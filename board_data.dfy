/**
 * The board record and the list the board scanner seals records into
 * (pyScripts/helper/board_data.py). A record is an object whose setters
 * update one field in place; `Value` is its contents as a value.
 */
module BoardRecords {

  /** The six fields of a board record, as a value. */
  datatype Board = Board(
    name: string,
    mcu: string,
    variant: string,
    flashSize: string,
    ledBuiltin: string,
    boardId: string)

  /** A freshly constructed record: every field is the empty string. */
  const EmptyBoard := Board("", "", "", "", "", "")

  class BoardData {
    var name: string
    var mcu: string
    var variant: string
    var flashSize: string
    var ledBuiltin: string
    var boardId: string

    function Value(): Board
      reads this
    {
      Board(name, mcu, variant, flashSize, ledBuiltin, boardId)
    }

    constructor ()
      ensures Value() == EmptyBoard
    {
      name, mcu, variant, flashSize, ledBuiltin, boardId := "", "", "", "", "", "";
    }

    method SetName(name: string)
      modifies this
      ensures Value() == old(Value()).(name := name)
    {
      this.name := name;
    }

    method SetMcu(mcu: string)
      modifies this
      ensures Value() == old(Value()).(mcu := mcu)
    {
      this.mcu := mcu;
    }

    method SetVariant(variant: string)
      modifies this
      ensures Value() == old(Value()).(variant := variant)
    {
      this.variant := variant;
    }

    /** Replaces the flash size; nothing accumulates. */
    method SetFlashSize(flashSize: string)
      modifies this
      ensures Value() == old(Value()).(flashSize := flashSize)
    {
      this.flashSize := flashSize;
    }

    method SetLedBuiltin(gpio: string)
      modifies this
      ensures Value() == old(Value()).(ledBuiltin := gpio)
    {
      this.ledBuiltin := gpio;
    }

    method SetBoardId(boardId: string)
      modifies this
      ensures Value() == old(Value()).(boardId := boardId)
    {
      this.boardId := boardId;
    }
  }

  /** A plain Python list of records: appending keeps order and allows duplicate ids. */
  class BoardList {
    var items: seq<BoardData>

    constructor ()
      ensures items == []
    {
      items := [];
    }

    method Append(b: BoardData)
      modifies this
      ensures items == old(items) + [b]
    {
      items := items + [b];
    }
  }

  /** The contents of a sequence of records. */
  function Values(bs: seq<BoardData>): (r: seq<Board>)
    reads bs
    ensures |r| == |bs|
  {
    if bs == [] then [] else Values(bs[..|bs| - 1]) + [bs[|bs| - 1].Value()]
  }

  /** Entry `i` of the contents is the contents of record `i`. */
  lemma {:induction false} ValuesAt(bs: seq<BoardData>)
    ensures forall i | 0 <= i < |bs| :: Values(bs)[i] == bs[i].Value()
  {
    if bs != [] {
      ValuesAt(bs[..|bs| - 1]);
    }
  }

  /** No record object occurs twice, so updating one record changes one entry. */
  predicate Distinct<T(==)>(s: seq<T>) {
    forall i, j | 0 <= i < j < |s| :: s[i] != s[j]
  }
}
