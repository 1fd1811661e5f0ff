/** The short form a block stores a transaction in: what the block header says already is left out. */
module BlockTxn {
  import opened Outcomes

  /** Genesis id "" and genesis hash 0 stand for absent ones; `rest` is everything else. */
  datatype SignedTxn = SignedTxn(genesisId: string, genesisHash: nat, rest: nat)

  /** What applying the transaction produced; 0 is the empty record. */
  type ApplyData = nat

  datatype InBlock = InBlock(txn: SignedTxn, apply: ApplyData, hasGenesisId: bool, hasGenesisHash: bool)

  datatype Header = Header(protocol: string, genesisId: string, genesisHash: nat)

  datatype Protocol = Protocol(supportSignedTxnInBlock: bool, requireGenesisHash: bool)

  type Consensus = map<string, Protocol>

  /** The transaction names this chain, or nothing where it may. */
  predicate Encodable(c: Consensus, h: Header, st: SignedTxn) {
    && h.protocol in c
    && (c[h.protocol].supportSignedTxnInBlock ==>
          && (st.genesisId == "" || st.genesisId == h.genesisId)
          && (if st.genesisHash == 0 then !c[h.protocol].requireGenesisHash else st.genesisHash == h.genesisHash))
  }

  function Short(p: Protocol, st: SignedTxn, ad: ApplyData): InBlock {
    if p.supportSignedTxnInBlock
    then InBlock(SignedTxn("", 0, st.rest), ad, st.genesisId != "", st.genesisHash != 0 && !p.requireGenesisHash)
    else InBlock(st, 0, false, false)
  }

  method EncodeSignedTxn(c: Consensus, h: Header, signed: SignedTxn, ad: ApplyData) returns (r: Result<InBlock>)
    ensures r.Ok? <==> Encodable(c, h, signed)
    ensures r.Ok? ==> r.value == Short(c[h.protocol], signed, ad)
  {
    var st := signed;
    var stb := InBlock(SignedTxn("", 0, 0), 0, false, false);
    if h.protocol !in c {
      return Err("consensus protocol not found");
    }
    var proto := c[h.protocol];
    if !proto.supportSignedTxnInBlock {
      stb := stb.(txn := st);
      return Ok(stb);
    }
    if st.genesisId != "" {
      if st.genesisId == h.genesisId {
        st := st.(genesisId := "");
        stb := stb.(hasGenesisId := true);
      } else {
        return Err("GenesisID mismatch");
      }
    }
    if st.genesisHash != 0 {
      if st.genesisHash == h.genesisHash {
        st := st.(genesisHash := 0);
        if !proto.requireGenesisHash {
          stb := stb.(hasGenesisHash := true);
        }
      } else {
        return Err("GenesisHash mismatch");
      }
    } else if proto.requireGenesisHash {
      return Err("GenesisHash required but missing");
    }
    stb := stb.(txn := st, apply := ad);
    r := Ok(stb);
  }

  predicate Decodable(c: Consensus, h: Header, stb: InBlock) {
    && h.protocol in c
    && (c[h.protocol].supportSignedTxnInBlock ==>
          stb.txn.genesisId == "" && stb.txn.genesisHash == 0
            && !(c[h.protocol].requireGenesisHash && stb.hasGenesisHash))
  }

  function Long(p: Protocol, h: Header, stb: InBlock): (SignedTxn, ApplyData) {
    if p.supportSignedTxnInBlock
    then (SignedTxn(if stb.hasGenesisId then h.genesisId else "",
                    if p.requireGenesisHash || stb.hasGenesisHash then h.genesisHash else 0, stb.txn.rest), stb.apply)
    else (stb.txn, 0)
  }

  method DecodeSignedTxn(c: Consensus, h: Header, stb: InBlock) returns (r: Result<(SignedTxn, ApplyData)>)
    ensures r.Ok? <==> Decodable(c, h, stb)
    ensures r.Ok? ==> r.value == Long(c[h.protocol], h, stb)
  {
    var st, ad := stb.txn, stb.apply;
    if h.protocol !in c {
      return Err("consensus protocol not found");
    }
    var proto := c[h.protocol];
    if !proto.supportSignedTxnInBlock {
      return Ok((st, 0));
    }
    if st.genesisId != "" {
      return Err("GenesisID not empty");
    }
    if stb.hasGenesisId {
      st := st.(genesisId := h.genesisId);
    }
    if st.genesisHash != 0 {
      return Err("GenesisHash not empty");
    }
    if proto.requireGenesisHash {
      if stb.hasGenesisHash {
        return Err("RequireGenesisHash obviates the flag");
      }
      st := st.(genesisHash := h.genesisHash);
    } else if stb.hasGenesisHash {
      st := st.(genesisHash := h.genesisHash);
    }
    r := Ok((st, ad));
  }

  /** Decoding undoes every successful encoding, except that a protocol without short forms drops the
      apply data. */
  method EncodeThenDecode(c: Consensus, h: Header, st: SignedTxn, ad: ApplyData)
    returns (r: Result<(SignedTxn, ApplyData)>)
    ensures r.Ok? <==>
              && h.protocol in c
              && (c[h.protocol].supportSignedTxnInBlock ==>
                    && st.genesisId in {"", h.genesisId}
                    && (st.genesisHash == h.genesisHash || st.genesisHash == 0)
                    && (c[h.protocol].requireGenesisHash ==> st.genesisHash != 0))
    ensures r.Ok? ==> r.value.0 == st
    ensures r.Ok? ==> (r.value.1 == ad <==> c[h.protocol].supportSignedTxnInBlock || ad == 0)
  {
    var stb := EncodeSignedTxn(c, h, st, ad);
    if stb.Err? {
      return Err(stb.error);
    }
    r := DecodeSignedTxn(c, h, stb.value);
  }

  /** A block's short form is the one its decoding encodes to exactly when its flags point at something:
      the header names a genesis wherever the form refers to it. */
  lemma DecodeThenEncode(c: Consensus, h: Header, stb: InBlock)
    requires Decodable(c, h, stb) && c[h.protocol].supportSignedTxnInBlock
    ensures var p, (st, ad) := c[h.protocol], Long(c[h.protocol], h, stb);
            Encodable(c, h, st) && Short(p, st, ad) == stb <==>
              (stb.hasGenesisId ==> h.genesisId != "")
                && (stb.hasGenesisHash || p.requireGenesisHash ==> h.genesisHash != 0)
  {}
}
