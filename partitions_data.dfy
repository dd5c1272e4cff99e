/**
 * Partition scheme records (pyScripts/helper/partitions_data.py): a scheme
 * (display name and build name), a board's partition record (default scheme
 * and the schemes keyed by menu key) and the list of records keyed by board
 * id. Records and the list are objects updated in place; a scheme is a value
 * stored in its record's map (see README, "Left out").
 */
module PartitionRecords {

  /** A partition scheme: its menu display name and the build (CSV) name. */
  datatype Scheme = Scheme(fullName: string, build: string)

  /** A freshly constructed scheme: both fields empty. */
  const NewScheme := Scheme("", "")

  /** The contents of a `PartitionData`: the default scheme and the schemes by key. */
  datatype Partition = Partition(default: string, schemes: map<string, Scheme>)

  /** A freshly constructed partition record: no default and no schemes. */
  const EmptyPartition := Partition("", map[])

  class PartitionData {
    var default: string
    var schemes: map<string, Scheme>
    /** Proof bookkeeping: the board id under which the record is stored. */
    ghost var owner: string

    function Value(): Partition
      reads this
    {
      Partition(default, schemes)
    }

    constructor ()
      ensures Value() == EmptyPartition
    {
      default, schemes := "", map[];
    }

    /** Overwrites the default scheme; the schemes are untouched. */
    method SetDefault(default: string)
      modifies this
      ensures Value() == old(Value()).(default := default)
      ensures owner == old(owner)
    {
      this.default := default;
    }

    /** Inserts or replaces exactly one key; the default and the other schemes are untouched. */
    method AddScheme(schemeName: string, scheme: Scheme)
      modifies this
      ensures Value() == old(Value()).(schemes := old(schemes)[schemeName := scheme])
      ensures owner == old(owner)
    {
      schemes := schemes[schemeName := scheme];
    }
  }

  /** A Python dict subclass from board id to partition record. */
  class PartitionList {
    var parts: map<string, PartitionData>

    /** The records as values, by board id. */
    function Value(): map<string, Partition>
      reads this, parts.Values
    {
      map b | b in parts :: parts[b].Value()
    }

    constructor ()
      ensures parts == map[]
    {
      parts := map[];
    }

    /** Inserts or replaces exactly one board; the other boards are untouched. */
    method AddPartition(boardName: string, partition: PartitionData)
      modifies this
      ensures parts == old(parts)[boardName := partition]
    {
      parts := parts[boardName := partition];
    }
  }
}
