/**
 * The NFT mint decision of the chain client: three checks choose between a real
 * contract mint and a fabricated mock mint, a real mint's token id is read from the
 * first ERC-721 `Transfer(from, to, tokenId)` event in the receipt, and a failed real
 * mint falls back to the mock when its message carries a known signature.
 *
 * The wallet, provider and contract are not modelled; their answers are the fields
 * of a `ChainOracle`, `None` standing for a call that throws.
 */
module Integration {
  import opened Wrappers
  import opened Text

  const ContractAddress: string := "0xb803940f2394834faa0f7f6e465b07f71ccccd97"
  const MockMode: bool := false
  const AutoDetectMock: bool := true

  /** The three error signatures that send a failed real mint to the mock path. */
  const ExternalToInternal: string := "External transactions to internal accounts"
  const CouldNotCoalesce: string := "could not coalesce error"
  const NotDeployed: string := "contract not deployed"

  /** A receipt log as `contract.interface.parseLog` sees it: `None` when it cannot be parsed. */
  datatype ParsedLog = ParsedLog(name: string, tokenId: nat)
  datatype Log = Log(parsed: Option<ParsedLog>)

  /**
   * What the real minting path gets: a mined transaction with its receipt logs; the
   * message of the error `getContract(true)` throws before any contract call (the
   * wallet refusing `eth_requestAccounts`, say); or the message of the error thrown by
   * `contract.mintNFT` or `tx.wait` once the transaction was sent for.
   */
  datatype MintCall =
    | Mined(txHash: string, logs: seq<Log>)
    | NoContract(message: string)
    | SendFailed(message: string)

  /** The answers of wallet, provider and contract to the calls the mint makes. */
  datatype ChainOracle = ChainOracle(
    signerAddress: Option<string>,  // signer.getAddress()
    code: Option<string>,           // provider.getCode(CONTRACT_ADDRESS)
    name: Option<string>,           // contract.name() in testContract
    symbol: Option<string>,         // contract.symbol() in testContract
    owner: Option<string>,          // contract.owner() in testContract
    mintOwner: Option<string>,      // contract.owner() read before minting
    mint: MintCall)

  /** The calls the mint makes, in order; a real out-parameter of `MintNFT`. */
  datatype ChainCall =
    | GetSignerAddress
    | GetCode
    | ReadName
    | ReadSymbol
    | ReadOwner            // contract.owner() in testContract
    | ReadOwnerBeforeMint  // contract.owner() in the owner check before minting
    | SendMint(recipient: string, tokenURI: string)

  predicate IsHexDigit(c: char) { '0' <= c <= '9' || 'a' <= c <= 'f' }

  /** `Math.floor(Math.random() * 10000)`. */
  type TokenDraw = d: nat | d < 10000
  /** `Math.floor(Math.random() * 1000000)`. */
  type BlockDraw = d: nat | d < 1000000
  /** `Math.random().toString(16).substring(2, 66)`: at most 64 hex digits. */
  type HexDigits = s: string | |s| <= 64 && forall i | 0 <= i < |s| :: IsHexDigit(s[i]) witness ""

  /** The random draws of one mock mint. */
  datatype MockDraws = MockDraws(tokenDraw: TokenDraw, hashDigits: HexDigits, blockDraw: BlockDraw)

  datatype Receipt =
    | ChainReceipt(logs: seq<Log>)
    | MockReceipt(transactionHash: string, blockNumber: nat, gasUsed: string, status: int, isMock: bool)

  /** The object `mintNFT` resolves to; `isMock` is `None` where the object has no such field. */
  datatype MintResult = MintResult(
    transactionHash: string,
    receipt: Receipt,
    tokenId: string,
    isReal: bool,
    isMock: Option<bool>)

  /** `mintNFT`'s promise: resolved with a result, or rejected with an error message. */
  datatype MintOutcome = Minted(result: MintResult) | Thrown(message: string)

  datatype ContractTest = Working(name: string, symbol: string, owner: string) | NotWorking

  // ---------------------------------------------------------------- the three checks

  /** `isContractDeployed`: the bytecode is neither `0x` nor `0x0` and longer than two characters; false when the provider throws. */
  predicate IsContractDeployed(code: Option<string>) {
    code.Some? && code.value != "0x" && code.value != "0x0" && |code.value| > 2
  }

  /** `isContractAddressValid`: the contract address is not the signer's, ignoring case; false when the wallet throws. */
  predicate IsContractAddressValid(signerAddress: Option<string>) {
    signerAddress.Some? && ToLower(ContractAddress) != ToLower(signerAddress.value)
  }

  /** `testContract`: working exactly when `name`, `symbol` and `owner` all answer. */
  function TestContract(o: ChainOracle): (r: ContractTest)
    ensures r.Working? <==> o.name.Some? && o.symbol.Some? && o.owner.Some?
    ensures r.Working? ==> r == Working(o.name.value, o.symbol.value, o.owner.value)
  {
    if o.name.None? || o.symbol.None? || o.owner.None? then NotWorking
    else Working(o.name.value, o.symbol.value, o.owner.value)
  }

  /** The reads `testContract` gets through: it stops at the first that throws. */
  function TestReads(o: ChainOracle): seq<ChainCall> {
    [ReadName] + if o.name.None? then [] else [ReadSymbol] + if o.symbol.None? then [] else [ReadOwner]
  }

  /** All three checks pass: the only case in which a real mint is attempted. */
  predicate ChecksPass(o: ChainOracle) {
    IsContractAddressValid(o.signerAddress) && IsContractDeployed(o.code) && TestContract(o).Working?
  }

  /** The catch clause's test: the message contains one of the three signatures. */
  predicate FallsBackToMock(message: string) {
    Contains(message, ExternalToInternal) || Contains(message, CouldNotCoalesce) || Contains(message, NotDeployed)
  }

  lemma DeployedCharacterisation(code: string)
    ensures IsContractDeployed(Some(code)) <==> |code| >= 3 && code != "0x0"
    ensures !IsContractDeployed(None)
  {
  }

  /** The address check ignores case, and the configured address itself, in any case, fails it. */
  lemma AddressCheckIgnoresCase(s: string)
    ensures IsContractAddressValid(Some(ToUpper(s))) == IsContractAddressValid(Some(s))
    ensures !IsContractAddressValid(Some(ContractAddress))
    ensures !IsContractAddressValid(Some(ToUpper(ContractAddress)))
  {
    LowerForgetsCase(s);
    LowerForgetsCase(ContractAddress);
  }

  // ---------------------------------------------------------------- the receipt

  predicate IsTransfer(log: Log) {
    log.parsed.Some? && log.parsed.value.name == "Transfer"
  }

  /** Index `i` holds the first log that parses as `Transfer`. */
  predicate FirstTransferAt(logs: seq<Log>, i: int) {
    0 <= i < |logs| && IsTransfer(logs[i]) && forall j :: 0 <= j < i ==> !IsTransfer(logs[j])
  }

  /** The token id of the first `Transfer` log; unparseable logs are skipped. */
  function FirstTransfer(logs: seq<Log>): (r: Option<nat>)
    ensures r.None? <==> forall i :: 0 <= i < |logs| ==> !IsTransfer(logs[i])
    ensures r.Some? ==> exists i :: FirstTransferAt(logs, i) && logs[i].parsed.value.tokenId == r.value
  {
    if logs == [] then None
    else if IsTransfer(logs[0]) then
      assert FirstTransferAt(logs, 0);
      Some(logs[0].parsed.value.tokenId)
    else
      var r := FirstTransfer(logs[1..]);
      if r.Some? then
        var i :| FirstTransferAt(logs[1..], i) && logs[1..][i].parsed.value.tokenId == r.value;
        assert FirstTransferAt(logs, i + 1);
        r
      else r
  }

  /** The `for (const log of receipt.logs)` loop that assigns `tokenId` and breaks at the first `Transfer`. */
  method FindTransferTokenId(logs: seq<Log>) returns (tokenId: Option<nat>)
    ensures tokenId == FirstTransfer(logs)
  {
    tokenId := None;
    var k := 0;
    while k < |logs|
      invariant 0 <= k <= |logs|
      invariant forall j :: 0 <= j < k ==> !IsTransfer(logs[j])
    {
      match logs[k].parsed {
        case Some(parsedLog) =>
          if parsedLog.name == "Transfer" {
            tokenId := Some(parsedLog.tokenId);
            assert FirstTransferAt(logs, k);
            break;
          }
        case None =>
          // parseLog threw: the log is skipped
      }
      k := k + 1;
    }
  }

  // ---------------------------------------------------------------- the two results

  /** `mockMintNFT`: a fabricated result tagged as a mock, with a token id in 1..10000. */
  function MockMint(d: MockDraws): (r: MintResult)
    ensures !r.isReal && r.isMock == Some(true)
    ensures "0x" <= r.transactionHash
    ensures AllDigits(r.tokenId) && 1 <= DecimalValue(r.tokenId) <= 10000
    ensures r.receipt.MockReceipt? && r.receipt.isMock && r.receipt.transactionHash == r.transactionHash
  {
    DecimalRoundTrip(d.tokenDraw + 1);
    var txHash := "0x" + d.hashDigits;
    MintResult(txHash, MockReceipt(txHash, d.blockDraw, "21000", 1, true),
               NatToDecimal(d.tokenDraw + 1), false, Some(true))
  }

  /** The real result: tagged real, without an `isMock` field, the token id or `'Unknown'`. */
  function RealMint(txHash: string, logs: seq<Log>, tokenId: Option<nat>): (r: MintResult)
    ensures r.isReal && r.isMock.None?
    ensures r.transactionHash == txHash && r.receipt == ChainReceipt(logs)
    ensures tokenId.None? ==> r.tokenId == "Unknown"
    ensures tokenId.Some? ==> AllDigits(r.tokenId) && DecimalValue(r.tokenId) == tokenId.value
  {
    if tokenId.Some? then DecimalRoundTrip(tokenId.value); MintResult(txHash, ChainReceipt(logs), NatToDecimal(tokenId.value), true, None)
    else MintResult(txHash, ChainReceipt(logs), "Unknown", true, None)
  }

  // ---------------------------------------------------------------- the decision

  /** The routing of `mintNFT` as one decision over the chain's answers. */
  function MintDecision(o: ChainOracle, d: MockDraws): MintOutcome {
    if !ChecksPass(o) then Minted(MockMint(d))
    else match o.mint
      case Mined(txHash, logs) => Minted(RealMint(txHash, logs, FirstTransfer(logs)))
      case NoContract(message) => if FallsBackToMock(message) then Minted(MockMint(d)) else Thrown(message)
      case SendFailed(message) => if FallsBackToMock(message) then Minted(MockMint(d)) else Thrown(message)
  }

  /**
   * `mintNFT`: the `shouldUseMock` flag is set step by step by the three checks, the
   * contract test runs only when the first two pass, the owner check's error is
   * swallowed, and the receipt's logs are scanned for the token id.
   */
  method MintNFT(o: ChainOracle, recipient: string, tokenURI: string, d: MockDraws)
    returns (outcome: MintOutcome, calls: seq<ChainCall>)
    ensures outcome == MintDecision(o, d)
    ensures |calls| >= 2 && calls[0] == GetSignerAddress && calls[1] == GetCode
    ensures ReadName in calls <==> IsContractAddressValid(o.signerAddress) && IsContractDeployed(o.code)
    ensures SendMint(recipient, tokenURI) in calls <==> ChecksPass(o) && !o.mint.NoContract?
    ensures ReadOwnerBeforeMint in calls <==> ChecksPass(o) && !o.mint.NoContract?
    ensures forall c :: c in calls && c.SendMint? ==> c == SendMint(recipient, tokenURI)
  {
    calls := [];
    var shouldUseMock := MockMode;
    if AutoDetectMock {
      var isValidAddress := IsContractAddressValid(o.signerAddress);
      calls := calls + [GetSignerAddress];
      var isDeployed := IsContractDeployed(o.code);
      calls := calls + [GetCode];
      if isValidAddress && isDeployed {
        var contractTest := TestContract(o);
        calls := calls + TestReads(o);
        if contractTest.Working? {
          shouldUseMock := false;
        } else {
          shouldUseMock := true;
        }
      } else {
        shouldUseMock := true;
      }
    }

    if shouldUseMock {
      outcome := Minted(MockMint(d));
      return;
    }

    if o.mint.NoContract? {
      // `getContract(true)` threw: no contract call is made and the outer catch decides.
      if AutoDetectMock && FallsBackToMock(o.mint.message) {
        outcome := Minted(MockMint(d));
      } else {
        outcome := Thrown(o.mint.message);
      }
      return;
    }

    // The owner check: a mismatch throws inside an inner try whose catch only logs.
    calls := calls + [ReadOwnerBeforeMint];
    if o.mintOwner.Some? {
      calls := calls + [GetSignerAddress];
    }

    calls := calls + [SendMint(recipient, tokenURI)];
    match o.mint {
      case SendFailed(message) =>
        if AutoDetectMock && FallsBackToMock(message) {
          outcome := Minted(MockMint(d));
        } else {
          outcome := Thrown(message);
        }
      case Mined(txHash, logs) =>
        var tokenId := FindTransferTokenId(logs);
        outcome := Minted(RealMint(txHash, logs, tokenId));
    }
  }

  // ---------------------------------------------------------------- routing properties

  /** A mock result comes out exactly when a check fails or a real mint fails with a known signature. */
  lemma MockChosenExactly(o: ChainOracle, d: MockDraws)
    ensures MintDecision(o, d).Minted? && MintDecision(o, d).result.isMock == Some(true)
            <==> !ChecksPass(o) || (!o.mint.Mined? && FallsBackToMock(o.mint.message))
  {
  }

  /** An error is rethrown unchanged exactly when a checked real mint fails without a known signature. */
  lemma ErrorRethrownUnchanged(o: ChainOracle, d: MockDraws)
    ensures MintDecision(o, d).Thrown?
            <==> ChecksPass(o) && !o.mint.Mined? && !FallsBackToMock(o.mint.message)
    ensures MintDecision(o, d).Thrown? ==> MintDecision(o, d).message == o.mint.message
  {
  }

  /** Every result is tagged either real or mock, never both and never neither. */
  lemma TagsExclusive(o: ChainOracle, d: MockDraws)
    ensures var out := MintDecision(o, d);
            out.Minted? ==> (out.result.isReal <==> out.result.isMock.None?)
                            && (!out.result.isReal <==> out.result.isMock == Some(true))
  {
  }

  /** Whoever the contract says its owner is, the outcome is the same: the owner check is only logged. */
  lemma OwnerCheckIgnored(o: ChainOracle, d: MockDraws, owner: Option<string>)
    ensures MintDecision(o.(mintOwner := owner), d) == MintDecision(o, d)
  {
  }

  /** A real mint that fails with a message embedding a known signature anywhere falls back to the mock. */
  lemma {:induction false} KnownSignatureFallsBack(o: ChainOracle, d: MockDraws, before: string, signature: string, after: string)
    requires ChecksPass(o)
    requires signature in {ExternalToInternal, CouldNotCoalesce, NotDeployed}
    requires !o.mint.Mined? && o.mint.message == before + signature + after
    ensures MintDecision(o, d) == Minted(MockMint(d))
  {
    ContainsInfix(before, signature, after);
  }
}
