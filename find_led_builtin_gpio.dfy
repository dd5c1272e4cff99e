/**
 * The stand-alone built-in-LED resolver (pyScripts/helper/find_led_builtin_gpio.py).
 * It walks a board list it shares with its caller and resolves each record
 * as `find_led_builtin` of the board scanner does, except that a `#define`
 * holding a number is accepted by the pin-count rule (`NumberOrConstant`).
 */
module FindLedBuiltinGpios {
  import opened LedResolution
  import opened BoardRecords
  import opened Files

  class FindLedBuiltinGpio {
    const corePath: string
    const coreName: string
    const boardsList: BoardList
    var numOfBoardsWithoutLed: nat

    function Boards(): seq<Board>
      reads boardsList, boardsList.items
    {
      Values(boardsList.items)
    }

    /** The list is shared with the caller, not copied. */
    constructor (corePath: string, coreName: string, boardsList: BoardList)
      ensures this.corePath == corePath && this.coreName == coreName
      ensures this.boardsList == boardsList && numOfBoardsWithoutLed == 0
    {
      this.corePath := corePath;
      this.coreName := coreName;
      this.boardsList := boardsList;
      numOfBoardsWithoutLed := 0;
    }

    /**
     * `find_led_builtin`: resolve every record's LED in place and return the
     * running count of records left unresolved (it accumulates over calls).
     */
    method FindLedBuiltin(fs: FileSystem) returns (count: nat)
      requires Distinct(boardsList.items)
      modifies this, boardsList.items
      ensures boardsList.items == old(boardsList.items)
      ensures Boards() == ResolveAll(NumberOrConstant, coreName, corePath, fs, old(Boards()))
      ensures numOfBoardsWithoutLed == old(numOfBoardsWithoutLed) + CountUnresolved(NumberOrConstant, coreName, corePath, fs, old(Boards()))
      ensures count == numOfBoardsWithoutLed
    {
      ghost var before := Boards();
      var missing := ResolveList(NumberOrConstant, coreName, corePath, fs, boardsList.items, Resolver(NumberOrConstant, coreName, corePath, fs), before);
      numOfBoardsWithoutLed := numOfBoardsWithoutLed + missing;
      count := numOfBoardsWithoutLed;
    }
  }
}
