/** The latch that admits new trades, and the single-use proofs that open it. */
module BootGate {
  import opened Domain

  /** A proof is recognised by its serial number, never by its contents. */
  datatype Proof = Proof(serial: nat, epoch: nat)

  class BootGate {
    var capability: Option<nat>
    var issued: Option<Proof>
    var latch: bool

    /** The latched readiness of the bound runtime, which its health probe reports. */
    var ready: bool
    var minted: nat

    /** Serial numbers of the proofs that opened the latch, oldest first. */
    ghost var openings: seq<nat>

    /** How many proofs had been minted at the last revocation. */
    ghost var revokedBelow: nat

    /** The proof behind the last opening. */
    ghost var opener: Option<Proof>

    ghost predicate Valid()
      reads this
    {
      && revokedBelow <= minted
      && (forall k :: 0 <= k < |openings| ==> openings[k] < minted)
      && (forall j, k :: 0 <= j < k < |openings| ==> openings[j] != openings[k])
      && (issued.Some? ==> revokedBelow <= issued.value.serial < minted && issued.value.serial !in openings)
      && (latch ==> opener.Some? && revokedBelow <= opener.value.serial && openings != []
                    && openings[|openings| - 1] == opener.value.serial)
    }

    constructor ()
      ensures Valid() && !latch && !ready && capability == None && openings == []
    {
      capability, issued, latch, ready, minted := None, None, false, false, 0;
      openings, revokedBelow, opener := [], 0, None;
    }

    /** One runtime for the life of the engine, until it hands the engine back. */
    method Bind(token: nat) returns (r: Result<()>)
      requires Valid()
      modifies this`capability
      ensures Valid()
      ensures r.Ok? <==> old(capability) in {None, Some(token)}
      ensures capability == if r.Ok? then Some(token) else old(capability)
    {
      if capability.Some? && capability.value != token {
        return Err(GateClosed);
      }
      capability := Some(token);
      r := Ok(());
    }

    method HandBack(token: nat) returns (r: Result<()>)
      requires Valid()
      modifies this
      ensures Valid() && openings == old(openings) && ready == old(ready)
      ensures r.Ok? <==> old(capability) in {None, Some(token)}
      ensures r.Ok? && old(capability).Some? ==>
                capability == None && !latch && issued == None && revokedBelow == minted
      ensures r.Err? || old(capability).None? ==> unchanged(this)
    {
      if capability.None? {
        return Ok(());
      }
      if capability.value != token {
        return Err(GateClosed);
      }
      capability := None;
      Revoke();
      r := Ok(());
    }

    /** Mints a proof for the epoch a clean boot has just reconciled. */
    method Issue(token: nat, authority: Option<nat>, unresolved: nat, quarantined: nat) returns (r: Result<Proof>)
      requires Valid()
      modifies this`issued, this`minted
      ensures Valid()
      ensures r.Ok? <==> capability == Some(token) && authority.Some? && unresolved == 0 && quarantined == 0
      ensures r.Ok? ==>
                r.value == Proof(old(minted), authority.value) && issued == Some(r.value) && minted == old(minted) + 1
      ensures r.Err? ==> r.exn == GateClosed && issued == old(issued) && minted == old(minted)
    {
      if capability != Some(token) || authority.None? || unresolved != 0 || quarantined != 0 {
        return Err(GateClosed);
      }
      var proof := Proof(minted, authority.value);
      minted := minted + 1;
      issued := Some(proof);
      r := Ok(proof);
    }

    /** A proof opens the latch at most once, and never once anything was revoked after it was minted. */
    method Grant(token: nat, authority: Option<nat>, proof: Option<Proof>) returns (r: Result<()>)
      requires Valid()
      modifies this`issued, this`latch, this`openings, this`opener
      ensures Valid()
      ensures r.Ok? <==> capability == Some(token) && authority.Some? && proof.Some? && old(issued).Some?
                         && proof.value.serial == old(issued).value.serial && authority.value == old(issued).value.epoch
      ensures r.Ok? ==> latch && issued == None && opener == old(issued)
      ensures r.Ok? ==> proof.value.serial !in old(openings) && proof.value.serial >= revokedBelow
                        && openings == old(openings) + [proof.value.serial]
      ensures r.Err? ==> r.exn == GateClosed && latch == old(latch) && issued == old(issued)
                         && openings == old(openings) && opener == old(opener)
    {
      if capability != Some(token) || authority.None? || proof.None? || issued.None? {
        return Err(GateClosed);
      }
      if proof.value.serial != issued.value.serial || issued.value.epoch != authority.value {
        return Err(GateClosed);
      }
      openings := openings + [issued.value.serial];
      opener := issued;
      issued := None;
      latch := true;
      r := Ok(());
    }

    /** Closes the latch and kills every proof minted so far. */
    method Revoke()
      requires Valid()
      modifies this`latch, this`issued, this`revokedBelow
      ensures Valid() && !latch && issued == None && revokedBelow == minted
    {
      latch := false;
      issued := None;
      revokedBelow := minted;
    }
  }
}
