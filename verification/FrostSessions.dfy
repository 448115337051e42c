/** Single-use key generation and signing sessions (frontend/frost-wasm/src/lib.rs,
    `KeygenSession` and `SignSession`).  The cryptography is a parameter: any partial
    functions in its place give the same protocol guarantees. */
module FrostSessions {
  import opened Wrappers

  datatype Result<T> = Ok(value: T) | Err(error: string)

  // Secrets and packages are opaque to the sessions.
  datatype Round1Secret = Round1Secret(id: nat)
  datatype Round2Secret = Round2Secret(id: nat)
  datatype Round1Package = Round1Package(id: nat)
  datatype Round2Package = Round2Package(id: nat)
  datatype KeyShare = KeyShare(keyPackage: string, publicKeyPackage: string, groupKey: string, address: string)

  /** Decoding, parts 2 and 3 of key generation and their serialisation; each may fail. */
  datatype Dkg = Dkg(
    decode1: string -> Option<Round1Package>,
    part2: (Round1Secret, Round1Package) -> Option<(Round2Secret, Option<string>)>,
    decode2: string -> Option<Round2Package>,
    part3: (Round2Secret, Round1Package, Round2Package) -> Option<KeyShare>)

  // ----- key generation -----

  datatype Stage =
    | AtRound1(first: Round1Secret)
    | AtRound2(secret: Round2Secret, serviceRound1: Round1Package)
    | Done

  /** Curator side of one key generation. */
  class KeygenSession {
    const dkg: Dkg
    var stage: Stage

    constructor (dkg: Dkg, secret: Round1Secret)
      ensures stage == AtRound1(secret) && this.dkg == dkg
    {
      this.dkg := dkg;
      stage := AtRound1(secret);
    }

    method Round2(serviceRound1: string) returns (r: Result<string>)
      modifies this
      ensures (stage, Outcome2(r)) == KeygenStep(dkg, old(stage), Round2Call(serviceRound1))
    {
      var was := stage;
      stage := Done;
      if !was.AtRound1? { return Err("keygen session is not at round 2"); }
      var package := dkg.decode1(serviceRound1);
      if package.None? { return Err("service round1 package"); }
      var produced := dkg.part2(was.first, package.value);
      if produced.None? { return Err("dkg part2"); }
      if produced.value.1.None? { return Err("no round2 package for the service"); }
      stage := AtRound2(produced.value.0, package.value);
      return Ok(produced.value.1.value);
    }

    method Finish(serviceRound2: string) returns (r: Result<KeyShare>)
      modifies this
      ensures (stage, Outcome3(r)) == KeygenStep(dkg, old(stage), FinishCall(serviceRound2))
    {
      var was := stage;
      stage := Done;
      if !was.AtRound2? { return Err("keygen session is not at finish"); }
      var package := dkg.decode2(serviceRound2);
      if package.None? { return Err("service round2 package"); }
      var share := dkg.part3(was.secret, was.serviceRound1, package.value);
      if share.None? { return Err("dkg part3"); }
      return Ok(share.value);
    }
  }

  datatype KeygenCall = Round2Call(package: string) | FinishCall(package: string)
  datatype Outcome = Sent(package: string) | Share(share: KeyShare) | Failed

  function Outcome2(r: Result<string>): Outcome { if r.Ok? then Sent(r.value) else Failed }
  function Outcome3(r: Result<KeyShare>): Outcome { if r.Ok? then Share(r.value) else Failed }

  /** Each call takes the stage out, and only a successful first round puts one back. */
  function KeygenStep(dkg: Dkg, stage: Stage, call: KeygenCall): (Stage, Outcome) {
    match (stage, call)
    case (AtRound1(secret), Round2Call(s)) =>
      var package := dkg.decode1(s);
      if package.None? then (Done, Failed) else
      var produced := dkg.part2(secret, package.value);
      if produced.None? || produced.value.1.None? then (Done, Failed)
      else (AtRound2(produced.value.0, package.value), Sent(produced.value.1.value))
    case (AtRound2(secret, first), FinishCall(s)) =>
      var package := dkg.decode2(s);
      if package.None? then (Done, Failed) else
      var share := dkg.part3(secret, first, package.value);
      (Done, if share.None? then Failed else Share(share.value))
    case _ => (Done, Failed)
  }

  function KeygenRun(dkg: Dkg, stage: Stage, calls: seq<KeygenCall>): (r: seq<Outcome>)
    ensures |r| == |calls|
    decreases |calls|
  {
    if calls == [] then []
    else
      var (next, o) := KeygenStep(dkg, stage, calls[0]);
      [o] + KeygenRun(dkg, next, calls[1..])
  }

  lemma {:induction false} DoneForGood(dkg: Dkg, calls: seq<KeygenCall>)
    ensures forall i :: 0 <= i < |calls| ==> KeygenRun(dkg, Done, calls)[i] == Failed
  {
    if calls != [] { DoneForGood(dkg, calls[1..]); }
  }

  /** The first call is a round 2 that goes through, leaving this secret and this service package. */
  ghost predicate Opened(dkg: Dkg, first: Round1Secret, calls: seq<KeygenCall>, secret: Round2Secret,
                         package: Round1Package) {
    && calls != [] && calls[0].Round2Call?
    && dkg.decode1(calls[0].package) == Some(package)
    && dkg.part2(first, package).Some? && dkg.part2(first, package).value.0 == secret
    && dkg.part2(first, package).value.1.Some?
  }

  /** Over any call sequence a result comes out exactly when the second call is a finish that goes through
      after a first call that did, and it is made from the service package of that first call. */
  lemma KeygenResultIff(dkg: Dkg, first: Round1Secret, calls: seq<KeygenCall>, i: nat, share: KeyShare)
    requires i < |calls|
    ensures KeygenRun(dkg, AtRound1(first), calls)[i] == Share(share) <==>
            (i == 1 && calls[1].FinishCall? && dkg.decode2(calls[1].package).Some?
             && exists secret, package :: Opened(dkg, first, calls, secret, package)
                  && dkg.part3(secret, package, dkg.decode2(calls[1].package).value) == Some(share))
  {
    var (next, o) := KeygenStep(dkg, AtRound1(first), calls[0]);
    var rest := calls[1..];
    DoneForGood(dkg, rest);
    if next.AtRound2? {
      assert Opened(dkg, first, calls, next.secret, next.serviceRound1);
      if rest != [] { AfterRound2(dkg, next, rest); }
    }
  }

  /** Over any call sequence a package for the service comes out exactly at a first call that is a round 2 that
      goes through, and it is the one part 2 produced. */
  lemma KeygenPackageIff(dkg: Dkg, first: Round1Secret, calls: seq<KeygenCall>, i: nat, package: string)
    requires i < |calls|
    ensures KeygenRun(dkg, AtRound1(first), calls)[i] == Sent(package) <==>
            (i == 0 && calls[0].Round2Call? && dkg.decode1(calls[0].package).Some?
             && exists secret ::
                  dkg.part2(first, dkg.decode1(calls[0].package).value) == Some((secret, Some(package))))
  {
    var (next, o) := KeygenStep(dkg, AtRound1(first), calls[0]);
    var rest := calls[1..];
    DoneForGood(dkg, rest);
    if next.AtRound2? && rest != [] { AfterRound2(dkg, next, rest); }
  }

  lemma AfterRound2(dkg: Dkg, stage: Stage, calls: seq<KeygenCall>)
    requires stage.AtRound2? && calls != []
    ensures var r := KeygenRun(dkg, stage, calls);
            && r[0] == KeygenStep(dkg, stage, calls[0]).1
            && forall i :: 0 < i < |calls| ==> r[i] == Failed
  {
    DoneForGood(dkg, calls[1..]);
  }

  /** At most one result, and a failed or misordered call ends the session for good. */
  lemma {:induction false} FailureEndsKeygen(dkg: Dkg, stage: Stage, calls: seq<KeygenCall>, i: nat, j: nat)
    requires i < j < |calls|
    ensures var r := KeygenRun(dkg, stage, calls);
            (r[i] == Failed || r[i].Share?) ==> r[j] == Failed
    decreases |calls|
  {
    var (next, o) := KeygenStep(dkg, stage, calls[0]);
    if i == 0 {
      DoneForGood(dkg, calls[1..]);
    } else {
      FailureEndsKeygen(dkg, next, calls[1..], i - 1, j - 1);
    }
  }

  // ----- signing -----

  datatype Nonces = Nonces(id: nat)
  type Digest = seq<nat>

  /** Decoding, signing and serialisation; each may fail. */
  datatype Signer = Signer(
    decodeHex: string -> Option<Digest>,
    decodeCommitments: string -> Option<nat>,
    sign: (Nonces, Digest, nat, nat) -> Option<string>,
    serializePackage: (Digest, nat, nat) -> Option<string>)

  datatype Signed = Signed(signingPackage: string, share: string)
  /** What a message and commitments are signed with. */
  datatype Signature = Signature(nonces: Nonces, message: Digest, curator: nat, service: nat)

  datatype SignState = SignState(nonces: Option<Nonces>, used: seq<Signature>)
  datatype SignCall = SignCall(messageHex: string, serviceCommitments: string)

  /** Curator side of one signing ceremony. */
  class SignSession {
    const signer: Signer
    const commitments: string
    var nonces: Option<Nonces>
    /** Every use of nonces so far. */
    ghost var used: seq<Signature>

    ghost function State(): SignState
      reads this
    {
      SignState(nonces, used)
    }

    constructor (signer: Signer, commitments: string, secret: Nonces)
      ensures State() == SignState(Some(secret), []) && this.signer == signer && this.commitments == commitments
    {
      this.signer, this.commitments := signer, commitments;
      nonces, used := Some(secret), [];
    }

    method Round2(messageHex: string, serviceCommitments: string) returns (r: Result<Signed>)
      modifies this
      ensures (State(), SignedBy(r)) == SignStep(signer, commitments, old(State()),
                                                 SignCall(messageHex, serviceCommitments))
    {
      var taken := nonces;
      nonces := None;
      if taken.None? { return Err("signing nonces already consumed"); }
      var message := signer.decodeHex(messageHex);
      if message.None? { return Err("message_hex is not hex"); }
      if |message.value| != 32 { return Err("message_hex must be a 32-byte digest"); }
      var curator := signer.decodeCommitments(commitments);
      if curator.None? { return Err("curator commitments"); }
      var service := signer.decodeCommitments(serviceCommitments);
      if service.None? { return Err("service commitments"); }
      var share := signer.sign(taken.value, message.value, curator.value, service.value);
      used := used + [Signature(taken.value, message.value, curator.value, service.value)];
      if share.None? { return Err("frost round2 sign"); }
      var package := signer.serializePackage(message.value, curator.value, service.value);
      if package.None? { return Err("serializing signing package"); }
      return Ok(Signed(package.value, share.value));
    }
  }

  function SignedBy(r: Result<Signed>): Option<Signed> { if r.Ok? then Some(r.value) else None }

  function SignStep(signer: Signer, commitments: string, s: SignState, call: SignCall): (SignState, Option<Signed>) {
    var spent := s.(nonces := None);
    if s.nonces.None? then (spent, None) else
    var message := signer.decodeHex(call.messageHex);
    if message.None? || |message.value| != 32 then (spent, None) else
    var curator := signer.decodeCommitments(commitments);
    var service := signer.decodeCommitments(call.serviceCommitments);
    if curator.None? || service.None? then (spent, None) else
    var share := signer.sign(s.nonces.value, message.value, curator.value, service.value);
    var after := spent.(used := s.used + [Signature(s.nonces.value, message.value, curator.value, service.value)]);
    var package := signer.serializePackage(message.value, curator.value, service.value);
    (after, if share.Some? && package.Some? then Some(Signed(package.value, share.value)) else None)
  }

  function SignRun(signer: Signer, commitments: string, s: SignState,
                   calls: seq<SignCall>): (r: (SignState, seq<Option<Signed>>))
    ensures |r.1| == |calls|
    decreases |calls|
  {
    if calls == [] then (s, [])
    else
      var (next, o) := SignStep(signer, commitments, s, calls[0]);
      var (last, os) := SignRun(signer, commitments, next, calls[1..]);
      (last, [o] + os)
  }

  lemma {:induction false} SpentForGood(signer: Signer, commitments: string, s: SignState, calls: seq<SignCall>)
    requires s.nonces.None?
    ensures var r := SignRun(signer, commitments, s, calls);
            r.0 == s && forall i :: 0 <= i < |calls| ==> r.1[i] == None
  {
    if calls != [] {
      assert SignStep(signer, commitments, s, calls[0]) == (s, None);
      SpentForGood(signer, commitments, s, calls[1..]);
    }
  }

  /** Over any call sequence, failing calls included, the nonces are used at most once; only the first call
      can give a share, and then the share is the one signature made, over a 32-byte digest. */
  lemma NoncesSignAtMostOnce(signer: Signer, commitments: string, nonces: Nonces, calls: seq<SignCall>)
    ensures var r := SignRun(signer, commitments, SignState(Some(nonces), []), calls);
            && |r.0.used| <= 1
            && (forall i :: 0 < i < |calls| ==> r.1[i] == None)
            && (forall i :: 0 <= i < |calls| && r.1[i].Some? ==>
                  && |r.0.used| == 1
                  && var u := r.0.used[0];
                     && u.nonces == nonces && |u.message| == 32
                        && signer.decodeHex(calls[0].messageHex) == Some(u.message)
                     && signer.sign(u.nonces, u.message, u.curator, u.service) == Some(r.1[i].value.share)
                     && signer.serializePackage(u.message, u.curator, u.service) == Some(r.1[i].value.signingPackage))
  {
    var s := SignState(Some(nonces), []);
    if calls != [] {
      var (next, o) := SignStep(signer, commitments, s, calls[0]);
      SpentForGood(signer, commitments, next, calls[1..]);
    }
  }

  /** Over any call sequence a signature comes out exactly at a first call whose message decodes to 32 bytes and
      whose commitments decode, and it is the share and the package over just that message, the session's own
      commitments and the service's. */
  lemma SignatureIff(signer: Signer, commitments: string, nonces: Nonces, calls: seq<SignCall>, i: nat, out: Signed)
    requires i < |calls|
    ensures SignRun(signer, commitments, SignState(Some(nonces), []), calls).1[i] == Some(out) <==>
            (i == 0 && exists message, curator, service ::
               && signer.decodeHex(calls[0].messageHex) == Some(message) && |message| == 32
               && signer.decodeCommitments(commitments) == Some(curator)
               && signer.decodeCommitments(calls[0].serviceCommitments) == Some(service)
               && signer.sign(nonces, message, curator, service) == Some(out.share)
               && signer.serializePackage(message, curator, service) == Some(out.signingPackage))
  {
    var (next, o) := SignStep(signer, commitments, SignState(Some(nonces), []), calls[0]);
    SpentForGood(signer, commitments, next, calls[1..]);
  }
}
