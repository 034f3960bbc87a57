/**
  The certificate ledger: one file holding the whole chain of certificates.
  Saving reads the chain, appends in memory and rewrites the file; reading
  the latest certificate returns the last element of the chain.

  The file is abstracted as its state: absent, holding a parseable chain, or
  present but unparseable.
*/
module Ledger {
  import opened Wrappers
  import Certificate

  type Cert = Certificate.Certificate

  datatype StoreState = Absent | Valid(chain: seq<Cert>) | Corrupt

  /** `json.load` on an unparseable file raises in the reader. */
  datatype StoreError = StoreCorrupt

  /** The chain the save step starts from: the parsed chain, or empty when the file is absent or unparseable. */
  function LoadedChain(file: StoreState): (chain: seq<Cert>)
    ensures file.Valid? ==> chain == file.chain
    ensures file.Absent? || file.Corrupt? ==> chain == []
  {
    if file.Valid? then file.chain else []
  }

  /** The file after one save. */
  function AfterSave(file: StoreState, cert: Cert): (next: StoreState)
    ensures next.Valid? && |next.chain| > 0 && next.chain[|next.chain| - 1] == cert
    ensures file.Valid? ==> |next.chain| == |file.chain| + 1 && next.chain[..|file.chain|] == file.chain
    ensures !file.Valid? ==> next.chain == [cert]
  {
    Valid(LoadedChain(file) + [cert])
  }

  /** What reading the latest certificate yields on a file. */
  function Latest(file: StoreState): (r: Result<Option<Cert>, StoreError>)
    ensures r.Failure? <==> file.Corrupt?
    ensures r == Success(None) <==> file.Absent? || file == Valid([])
    ensures r.Success? && r.value.Some? ==> file.Valid? && r.value.value == file.chain[|file.chain| - 1]
  {
    match file
    case Absent => Success(None)
    case Corrupt => Failure(StoreCorrupt)
    case Valid(chain) => if chain == [] then Success(None) else Success(Some(chain[|chain| - 1]))
  }

  /** Right after a save, the latest certificate is the one saved, whatever the file held. */
  lemma SaveThenLatest(file: StoreState, cert: Cert)
    ensures Latest(AfterSave(file, cert)) == Success(Some(cert))
  {
  }

  /** The file after saving the certificates one after another. */
  function SaveAll(file: StoreState, certs: seq<Cert>): StoreState
    decreases |certs|
  {
    if certs == [] then file else SaveAll(AfterSave(file, certs[0]), certs[1..])
  }

  /**
    Saving a non-empty run of certificates appends them all, in order, to the
    chain the first save started from: nothing is lost or reordered, and
    every prior entry keeps its value and position.
  */
  lemma {:induction false} SaveAllAppends(file: StoreState, certs: seq<Cert>)
    requires certs != []
    ensures SaveAll(file, certs) == Valid(LoadedChain(file) + certs)
    decreases |certs|
  {
    var next := AfterSave(file, certs[0]);
    if certs[1..] == [] {
      assert certs == [certs[0]];
    } else {
      SaveAllAppends(next, certs[1..]);
      assert LoadedChain(file) + [certs[0]] + certs[1..] == LoadedChain(file) + certs;
    }
  }

  /** From an absent file, n saves leave exactly those n certificates, the last one being the latest. */
  lemma SavesFromAbsent(certs: seq<Cert>)
    requires certs != []
    ensures SaveAll(Absent, certs) == Valid(certs)
    ensures Latest(SaveAll(Absent, certs)) == Success(Some(certs[|certs| - 1]))
  {
    SaveAllAppends(Absent, certs);
    assert [] + certs == certs;
  }

  /** The single ledger file; every operation goes through this handle. */
  class CertificateStore {
    var file: StoreState

    constructor (initial: StoreState)
      ensures file == initial
    {
      file := initial;
    }

    /** Load the chain (empty if the file is absent or unparseable), append, rewrite the file. */
    method SaveCertificate(cert: Cert)
      modifies this
      ensures file == AfterSave(old(file), cert)
    {
      var chain: seq<Cert>;
      if !file.Absent? {
        if file.Valid? {
          chain := file.chain;
        } else {
          chain := [];
        }
      } else {
        chain := [];
      }
      chain := chain + [cert];
      file := Valid(chain);
    }

    /** Read-only: no `modifies` clause, so the file is the same afterwards. */
    method GetLatestCertificate() returns (r: Result<Option<Cert>, StoreError>)
      ensures r.Failure? <==> file.Corrupt?
      ensures r == Success(None) <==> file.Absent? || file == Valid([])
      ensures file.Valid? && file.chain != [] ==> r == Success(Some(file.chain[|file.chain| - 1]))
      ensures r == Latest(file)
    {
      if file.Absent? {
        return Success(None);
      }
      if file.Corrupt? {
        return Failure(StoreCorrupt);
      }
      var chain := file.chain;
      if chain != [] {
        return Success(Some(chain[|chain| - 1]));
      }
      return Success(None);
    }
  }
}
