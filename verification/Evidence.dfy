/** The evidence that one attestation message hands to the verifier. */
module Evidence {
  import opened Wrappers
  import opened Json

  /** A TEE kind, identified by its variant name. */
  type Tee = string

  datatype InitData = InitData(format: string, body: string)

  datatype IndependentEvidence =
    IndependentEvidence(tee: Tee, evidence: Json, runtimeData: Json, initData: Option<InitData>)

  /** The attester's message: its nonce and public key, the primary evidence, and the text of the additional
      evidence. */
  datatype Attestation =
    Attestation(nonce: string, teePubkey: Json, primary: Json, additional: string, initData: Option<InitData>)

  datatype EvidenceError = NonceMismatch | MalformedAdditional

  /** Reading the text of the additional evidence. */
  type ReadAdditional = string -> Option<map<Tee, Json>>

  function RuntimeData(nonce: string, key: Json): map<string, Json> {
    map["tee-pubkey" := key, "nonce" := Str(nonce)]
  }

  function Primary(tee: Tee, nonce: string, a: Attestation): IndependentEvidence {
    IndependentEvidence(
      tee, a.primary, Obj(RuntimeData(nonce, a.teePubkey)["additional-evidence" := Str(a.additional)]), a.initData)
  }

  function Device(tee: Tee, evidence: Json, nonce: string, a: Attestation): IndependentEvidence {
    IndependentEvidence(tee, evidence, Obj(RuntimeData(nonce, a.teePubkey)), None)
  }

  /** The additional evidence that was sent, or nothing when its text does not parse. */
  function Devices(read: ReadAdditional, a: Attestation): Option<map<Tee, Json>> {
    if a.additional == "" then Some(map[]) else read(a.additional)
  }

  /** The primary evidence, then the additional evidence in the order it is visited. */
  function EvidenceList(tee: Tee, nonce: string, a: Attestation, devices: map<Tee, Json>, order: seq<Tee>)
    : (es: seq<IndependentEvidence>)
    requires forall t :: t in order ==> t in devices
    ensures |es| == 1 + |order|
  {
    if order == [] then
      [Primary(tee, nonce, a)]
    else
      var last := order[|order| - 1];
      EvidenceList(tee, nonce, a, devices, order[..|order| - 1]) + [Device(last, devices[last], nonce, a)]
  }

  /** Every key once. */
  ghost predicate Enumerates(order: seq<Tee>, keys: set<Tee>) {
    && (forall t :: t in order <==> t in keys)
    && (forall i, j :: 0 <= i < j < |order| ==> order[i] != order[j])
  }

  /** Check the nonce and list the evidence; the additional evidence is visited in any order. */
  method CollectEvidence(read: ReadAdditional, tee: Tee, nonce: string, a: Attestation)
    returns (r: Outcome<seq<IndependentEvidence>, EvidenceError>, ghost order: seq<Tee>)
    ensures nonce != a.nonce ==> r == Err(NonceMismatch)
    ensures nonce == a.nonce && Devices(read, a).None? ==> r == Err(MalformedAdditional)
    ensures nonce == a.nonce ==> (r.Ok? <==> a.additional == "" || read(a.additional).Some?)
    ensures r.Ok? ==> |order| == if a.additional == "" then 0 else |read(a.additional).value|
    ensures nonce == a.nonce && Devices(read, a).Some? ==>
              && Enumerates(order, Devices(read, a).value.Keys)
              && r == Ok(EvidenceList(tee, nonce, a, Devices(read, a).value, order))
  {
    order := [];
    if nonce != a.nonce {
      return Err(NonceMismatch), order;
    }
    var evidence := [Primary(tee, nonce, a)];
    if a.additional != "" {
      var devices := read(a.additional);
      if devices.None? {
        return Err(MalformedAdditional), order;
      }
      var todo := devices.value.Keys;
      while todo != {}
        invariant todo <= devices.value.Keys && |order| + |todo| == |devices.value|
        invariant Enumerates(order, devices.value.Keys - todo)
        invariant evidence == EvidenceList(tee, nonce, a, devices.value, order)
        decreases todo
      {
        var t :| t in todo;
        todo := todo - {t};
        evidence := evidence + [Device(t, devices.value[t], nonce, a)];
        assert (order + [t])[..|order|] == order;
        order := order + [t];
      }
    }
    return Ok(evidence), order;
  }

  /** The evidence speaks for one TEE first, and all of it for one nonce and one public key. */
  predicate Bound(evidence: seq<IndependentEvidence>, tee: Tee, nonce: string, key: Json) {
    && evidence != [] && evidence[0].tee == tee
    && forall e :: e in evidence ==> Carries(e.runtimeData, nonce, key)
  }

  predicate Carries(runtimeData: Json, nonce: string, key: Json) {
    && runtimeData.Obj?
    && "nonce" in runtimeData.fields && runtimeData.fields["nonce"] == Str(nonce)
    && "tee-pubkey" in runtimeData.fields && runtimeData.fields["tee-pubkey"] == key
  }

  /** In whatever order the additional evidence is visited. */
  lemma {:induction false} EvidenceBound(tee: Tee, nonce: string, a: Attestation, devices: map<Tee, Json>,
                                         order: seq<Tee>)
    requires forall t :: t in order ==> t in devices
    ensures Bound(EvidenceList(tee, nonce, a, devices, order), tee, nonce, a.teePubkey)
  {
    if order != [] {
      EvidenceBound(tee, nonce, a, devices, order[..|order| - 1]);
    }
  }

  /** The primary evidence as it was sent, with the init data, bound to the nonce, the key and the additional text. */
  predicate IsPrimary(e: IndependentEvidence, tee: Tee, nonce: string, a: Attestation) {
    && e.tee == tee && e.evidence == a.primary && e.initData == a.initData
    && Carries(e.runtimeData, nonce, a.teePubkey)
    && e.runtimeData.fields.Keys == {"tee-pubkey", "nonce", "additional-evidence"}
    && e.runtimeData.fields["additional-evidence"] == Str(a.additional)
  }

  /** Additional evidence as it was sent for its TEE, without init data, bound to the nonce and the key alone. */
  predicate IsDevice(e: IndependentEvidence, tee: Tee, evidence: Json, nonce: string, a: Attestation) {
    && e.tee == tee && e.evidence == evidence && e.initData == None
    && Carries(e.runtimeData, nonce, a.teePubkey)
    && e.runtimeData.fields.Keys == {"tee-pubkey", "nonce"}
  }

  /** Every piece of the list: the primary evidence first, then one piece per device visited. */
  lemma {:induction false} EvidencePieces(tee: Tee, nonce: string, a: Attestation, devices: map<Tee, Json>, order: seq<Tee>)
    requires forall t :: t in order ==> t in devices
    ensures var es := EvidenceList(tee, nonce, a, devices, order);
            && IsPrimary(es[0], tee, nonce, a)
            && forall i :: 0 <= i < |order| ==> IsDevice(es[i + 1], order[i], devices[order[i]], nonce, a)
  {
    if order != [] {
      EvidencePieces(tee, nonce, a, devices, order[..|order| - 1]);
    }
  }
}
