/** The review step before an import
    (`src/components/contracts/ContractPreviewTable.tsx`): the parsed
    contracts are held as state, the user removes or edits them, and only
    the ones that pass validation are handed on to the importer. */
module ContractPreview {
  import opened Common
  import opened ContractParser

  // ---------------------------------------------------------------------------
  // The list operations

  /** `s.filter((_, i) => i !== index)`. */
  function DropIndex<T>(s: seq<T>, index: int): (r: seq<T>)
    ensures |r| == if 0 <= index < |s| then |s| - 1 else |s|
    decreases |s|
  {
    if s == [] then []
    else DropIndex(s[..|s| - 1], index) + (if |s| - 1 != index then [s[|s| - 1]] else [])
  }

  /** Removing by index drops exactly the element at that index and keeps
      the others in order; an index outside the list removes nothing. */
  lemma {:induction false} DropIndexIsRemoval<T>(s: seq<T>, index: int)
    ensures 0 <= index < |s| ==> DropIndex(s, index) == s[..index] + s[index + 1..]
    ensures !(0 <= index < |s|) ==> DropIndex(s, index) == s
    decreases |s|
  {
    if s != [] {
      var n := |s| - 1;
      DropIndexIsRemoval(s[..n], index);
      if index == n {
        assert s[..n] + s[n + 1..] == s[..n];
      } else if 0 <= index < n {
        assert s[..n][..index] == s[..index];
        assert s[..n][index + 1..] + [s[n]] == s[index + 1..];
      } else {
        assert s[..n] + [s[n]] == s;
      }
    }
  }

  /** `contracts.filter(c => validateContractData(c).valid)`. */
  function ValidContracts(cs: seq<ContractData>): (r: seq<ContractData>)
    ensures |r| <= |cs|
    ensures forall c :: c in r ==> ValidateContractData(c).valid && c in cs
    decreases |cs|
  {
    if cs == [] then []
    else
      ValidContracts(cs[..|cs| - 1])
      + (if ValidateContractData(cs[|cs| - 1]).valid then [cs[|cs| - 1]] else [])
  }

  /** The filter keeps order: filtering a concatenation is concatenating the
      filtered parts. */
  lemma {:induction false} ValidContractsAppend(a: seq<ContractData>, b: seq<ContractData>)
    ensures ValidContracts(a + b) == ValidContracts(a) + ValidContracts(b)
    decreases |b|
  {
    if b == [] {
      assert a + b == a;
    } else {
      var n := |b| - 1;
      var last := if ValidateContractData(b[n]).valid then [b[n]] else [];
      assert (a + b)[..|a + b| - 1] == a + b[..n];
      assert (a + b)[|a + b| - 1] == b[n];
      assert ValidContracts(a + b) == ValidContracts(a + b[..n]) + last;
      assert ValidContracts(b) == ValidContracts(b[..n]) + last;
      ValidContractsAppend(a, b[..n]);
      assert ValidContracts(a) + ValidContracts(b[..n]) + last
          == ValidContracts(a) + (ValidContracts(b[..n]) + last);
    }
  }

  /** No valid contract is dropped, and a list of valid contracts passes
      whole. */
  lemma {:induction false} ValidContractsComplete(cs: seq<ContractData>)
    ensures forall c :: c in cs && ValidateContractData(c).valid ==> c in ValidContracts(cs)
    ensures (forall c :: c in cs ==> ValidateContractData(c).valid) <==> ValidContracts(cs) == cs
    decreases |cs|
  {
    if cs != [] {
      var n := |cs| - 1;
      ValidContractsComplete(cs[..n]);
      assert cs == cs[..n] + [cs[n]];
      assert forall c :: c in cs[..n] ==> c in cs;
      if ValidContracts(cs) == cs {
        assert ValidateContractData(cs[n]).valid by {
          assert |ValidContracts(cs[..n])| <= n;
        }
        assert ValidContracts(cs[..n]) == cs[..n];
      }
    }
  }

  // ---------------------------------------------------------------------------
  // The component's state

  class PreviewTable {
    /** The `contracts` state. */
    var contracts: seq<ContractData>

    constructor(initial: seq<ContractData>)
      ensures contracts == initial
    {
      contracts := initial;
    }

    /** The "ready to import" count shown under the table. */
    function ReadyCount(): (n: nat)
      reads this
      ensures n == |ValidContracts(contracts)|
      ensures n <= |contracts|
    {
      |ValidContracts(contracts)|
    }

    /** `handleRemoveContract`. */
    method RemoveContract(index: int)
      modifies this
      ensures contracts == DropIndex(old(contracts), index)
      ensures 0 <= index < |old(contracts)| ==> contracts == old(contracts)[..index] + old(contracts)[index + 1..]
      ensures !(0 <= index < |old(contracts)|) ==> contracts == old(contracts)
    {
      DropIndexIsRemoval(contracts, index);
      contracts := DropIndex(contracts, index);
    }

    /** `handleEditField`: the named field of the contract at `index` takes
        `value`, an empty value clearing it; every other field and every
        other contract is left as it was. The table only offers rows that
        exist, so `index` is in range. */
    method EditField(index: int, field: Field, value: string)
      requires 0 <= index < |contracts|
      modifies this
      ensures |contracts| == |old(contracts)|
      ensures Get(contracts[index], field) == NonEmpty(value)
      ensures forall g :: g != field ==> Get(contracts[index], g) == Get(old(contracts)[index], g)
      ensures forall j :: 0 <= j < |contracts| && j != index ==> contracts[j] == old(contracts)[j]
    {
      var updated := contracts;
      updated := updated[index := Set(updated[index], field, NonEmpty(value))];
      contracts := updated;
    }

    /** `handleConfirm`: the valid contracts, in their current order, or
        `None` (the alert, and no call) when there is none. */
    method Confirm() returns (forwarded: Option<seq<ContractData>>)
      ensures forwarded.Some? <==> exists c :: c in contracts && ValidateContractData(c).valid
      ensures forwarded.Some? ==> forwarded.value == ValidContracts(contracts) && forwarded.value != []
    {
      ValidContractsComplete(contracts);
      var validContracts := ValidContracts(contracts);
      if |validContracts| == 0 {
        return None;
      }
      assert validContracts[0] in validContracts;
      forwarded := Some(validContracts);
    }
  }
}
