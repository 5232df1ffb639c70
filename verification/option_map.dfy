/**
 * The `Options` property of `CoapMessage`: a `SortedDictionary` from option number to the
 * list of instances of that number, modelled as an association list sorted by number.
 */
module OptionMap {
  import opened Bytes
  import opened Text
  import opened CoapOptions

  /** All instances of one option number, in the order they were added. */
  datatype Entry = Entry(number: nat, instances: seq<Bytes>)

  predicate Sorted(entries: seq<Entry>) {
    forall i, j :: 0 <= i < j < |entries| ==> entries[i].number < entries[j].number
  }

  /** Keys strictly ascending; a key is present only with at least one instance. */
  predicate WellFormed(entries: seq<Entry>) {
    && Sorted(entries)
    && forall i :: 0 <= i < |entries| ==> |entries[i].instances| > 0
  }

  type Options = entries: seq<Entry> | WellFormed(entries)

  function Keys(entries: seq<Entry>): set<nat> {
    set i | 0 <= i < |entries| :: entries[i].number
  }

  /** `Options[number]`, or no instances when the key is absent. */
  function Lookup(entries: seq<Entry>, number: nat): seq<Bytes> {
    if |entries| == 0 then []
    else if entries[0].number == number then entries[0].instances
    else Lookup(entries[1..], number)
  }

  lemma {:induction false} LookupAbsent(entries: seq<Entry>, number: nat)
    requires number !in Keys(entries)
    ensures Lookup(entries, number) == []
  {
    if |entries| > 0 {
      assert Keys(entries[1..]) <= Keys(entries) by {
        forall k | k in Keys(entries[1..]) ensures k in Keys(entries) {
          var i :| 0 <= i < |entries[1..]| && entries[1..][i].number == k;
          assert entries[i + 1].number == k;
        }
      }
      assert entries[0].number in Keys(entries);
      LookupAbsent(entries[1..], number);
    }
  }

  /** `ContainsKey` agrees with `Lookup` on a well-formed map. */
  lemma {:induction false} ContainsIffInstances(opts: Options, number: nat)
    ensures number in Keys(opts) <==> |Lookup(opts, number)| > 0
  {
    if number in Keys(opts) {
      var i :| 0 <= i < |opts| && opts[i].number == number;
      LookupAt(opts, i);
    } else {
      LookupAbsent(opts, number);
    }
  }

  lemma {:induction false} LookupAt(opts: Options, i: nat)
    requires i < |opts|
    ensures Lookup(opts, opts[i].number) == opts[i].instances
  {
    if i > 0 {
      assert opts[0].number < opts[i].number;
      var rest: Options := opts[1..];
      assert rest[i - 1] == opts[i];
      LookupAt(rest, i - 1);
    }
  }

  lemma TailKeys(entries: seq<Entry>)
    requires |entries| > 0
    ensures Keys(entries) == {entries[0].number} + Keys(entries[1..])
  {
    forall k | k in Keys(entries) ensures k in {entries[0].number} + Keys(entries[1..]) {
      var i :| 0 <= i < |entries| && entries[i].number == k;
      if i > 0 {
        assert entries[1..][i - 1].number == k;
      }
    }
    forall k | k in Keys(entries[1..]) ensures k in Keys(entries) {
      var i :| 0 <= i < |entries[1..]| && entries[1..][i].number == k;
      assert entries[i + 1].number == k;
    }
  }

  /** The shape of the private `AddOption(number, option)`, before its properties are proved. */
  function InsertEntry(entries: seq<Entry>, number: nat, value: Bytes): seq<Entry>
    decreases |entries|
  {
    if |entries| == 0 then [Entry(number, [value])]
    else if entries[0].number == number then [Entry(number, entries[0].instances + [value])] + entries[1..]
    else if number < entries[0].number then [Entry(number, [value])] + entries
    else [entries[0]] + InsertEntry(entries[1..], number, value)
  }

  lemma {:induction false} InsertKeys(entries: seq<Entry>, number: nat, value: Bytes)
    ensures Keys(InsertEntry(entries, number, value)) == Keys(entries) + {number}
    decreases |entries|
  {
    var r := InsertEntry(entries, number, value);
    TailKeys(r);
    if |entries| == 0 {
      assert r[1..] == [];
    } else {
      TailKeys(entries);
      if entries[0].number == number {
        assert r[1..] == entries[1..];
      } else if number < entries[0].number {
        assert r[1..] == entries;
      } else {
        assert r[1..] == InsertEntry(entries[1..], number, value);
        InsertKeys(entries[1..], number, value);
      }
    }
  }

  lemma SortedCons(e: Entry, tail: seq<Entry>)
    requires Sorted(tail)
    requires forall k :: k in Keys(tail) ==> e.number < k
    ensures Sorted([e] + tail)
  {
    var r := [e] + tail;
    forall i, j | 0 <= i < j < |r| ensures r[i].number < r[j].number {
      if i == 0 {
        assert r[j] == tail[j - 1];
        assert tail[j - 1].number in Keys(tail);
      } else {
        assert r[i] == tail[i - 1] && r[j] == tail[j - 1];
      }
    }
  }

  lemma SortedTail(entries: seq<Entry>)
    requires Sorted(entries) && |entries| > 0
    ensures Sorted(entries[1..])
    ensures forall k :: k in Keys(entries[1..]) ==> entries[0].number < k
  {
    forall k | k in Keys(entries[1..]) ensures entries[0].number < k {
      var i :| 0 <= i < |entries[1..]| && entries[1..][i].number == k;
      assert entries[i + 1].number == k;
    }
  }

  lemma {:induction false} InsertWellFormed(entries: seq<Entry>, number: nat, value: Bytes)
    requires WellFormed(entries)
    ensures WellFormed(InsertEntry(entries, number, value))
    decreases |entries|
  {
    var r := InsertEntry(entries, number, value);
    if |entries| > 0 {
      SortedTail(entries);
      if entries[0].number == number {
        SortedCons(Entry(number, entries[0].instances + [value]), entries[1..]);
      } else if number < entries[0].number {
        TailKeys(entries);
        SortedCons(Entry(number, [value]), entries);
      } else {
        var tail := InsertEntry(entries[1..], number, value);
        InsertWellFormed(entries[1..], number, value);
        InsertKeys(entries[1..], number, value);
        SortedCons(entries[0], tail);
        assert r == [entries[0]] + tail;
      }
    }
  }

  lemma {:induction false} InsertLookup(entries: seq<Entry>, number: nat, value: Bytes, k: nat)
    requires WellFormed(entries)
    ensures Lookup(InsertEntry(entries, number, value), k)
         == if k == number then Lookup(entries, k) + [value] else Lookup(entries, k)
    decreases |entries|
  {
    var r := InsertEntry(entries, number, value);
    if |entries| > 0 {
      SortedTail(entries);
      if entries[0].number == number {
        assert r[1..] == entries[1..];
      } else if number < entries[0].number {
        assert r[1..] == entries;
        if k == number {
          TailKeys(entries);
          LookupAbsent(entries, k);
        }
      } else {
        assert r[1..] == InsertEntry(entries[1..], number, value);
        InsertLookup(entries[1..], number, value, k);
      }
    }
  }

  /**
   * The private `AddOption(number, option)`: appends `value` to the instances of `number`,
   * creating the key at its sorted position when it is absent.
   */
  function Insert(opts: Options, number: nat, value: Bytes): Options {
    InsertWellFormed(opts, number, value);
    InsertEntry(opts, number, value)
  }

  /**
   * `AddOption` appends to the instances of its key, adds the key, and leaves every other
   * key as it was. Stated as a lemma so that goals mentioning `Insert` stay cheap.
   */
  lemma InsertSpec(opts: Options, number: nat, value: Bytes)
    ensures Keys(Insert(opts, number, value)) == Keys(opts) + {number}
    ensures Lookup(Insert(opts, number, value), number) == Lookup(opts, number) + [value]
    ensures forall k :: k != number ==> Lookup(Insert(opts, number, value), k) == Lookup(opts, k)
  {
    InsertKeys(opts, number, value);
    InsertLookup(opts, number, value, number);
    forall k | k != number
      ensures Lookup(Insert(opts, number, value), k) == Lookup(opts, k)
    {
      InsertLookup(opts, number, value, k);
    }
  }

  /** `AddOption(number, CoapOption)` as called by the public overloads: keyed by the option's number. */
  function AddOption(opts: Options, o: CoapOption): (r: Options)
    ensures Lookup(r, o.number) == Lookup(opts, o.number) + [o.value]
    ensures forall k :: k != o.number ==> Lookup(r, k) == Lookup(opts, k)
  {
    InsertSpec(opts, o.number, o.value);
    Insert(opts, o.number, o.value)
  }

  /** `AddOption(number, string)`. */
  function AddString(opts: Options, number: nat, s: string): Options {
    AddOption(opts, StringOption(number, s))
  }

  /** `AddOption(number, byte[])`. */
  function AddBytes(opts: Options, number: nat, value: Bytes): Options {
    AddOption(opts, CoapOption(number, value))
  }

  /** `AddOption(number, int)`. */
  function AddUint(opts: Options, number: nat, v: int32): Options {
    AddOption(opts, UintOption(number, v))
  }

  /** Every instance in wire order: ascending number, and arrival order within a number. */
  function Flatten(entries: seq<Entry>): seq<(nat, Bytes)> {
    if |entries| == 0 then [] else Pairs(entries[0].number, entries[0].instances) + Flatten(entries[1..])
  }

  function Pairs(number: nat, values: seq<Bytes>): (r: seq<(nat, Bytes)>)
    ensures |r| == |values|
    ensures forall i :: 0 <= i < |r| ==> r[i] == (number, values[i])
  {
    if |values| == 0 then [] else [(number, values[0])] + Pairs(number, values[1..])
  }
}
