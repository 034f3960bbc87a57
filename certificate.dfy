/**
  The certificate minter: a certificate whose id and hash come from one
  SHA-256 digest of "{farm}-{crop}-{score}-{instant}", a grade threshold and a
  four-harvest reputation built from three synthetic prior harvests.

  SHA-256 is a parameter `sha256` (only its value on the raw data is used and
  it must be a 64-character lowercase hex digest); the two clock reads are
  the strings `instant` (the raw data's text of the moment) and `issuedAt`
  (the formatted timestamp); the three random prior scores are `rolls`.
*/
module Certificate {

  const VerificationMethod := "IoT_SENSOR_CONSENSUS"
  /** Scores strictly above this earn Grade A. */
  const GradeThreshold: int := 85
  const GradeA := "Grade A"
  const GradeB := "Grade B"
  const IdPrefix := "VY-"
  const HashPrefix := "0x"
  /** Hex characters of the digest kept in the id. */
  const IdHexDigits: nat := 8
  const DigestLength: nat := 64
  /** Three prior harvests plus the current one. */
  const TotalHarvestsVerified: nat := 4

  datatype HistoryEntry = HistoryEntry(date: string, crop: string, score: int)

  datatype Harvest = Harvest(crop: string, trustScore: int, verificationMethod: string, grade: string)

  datatype Reputation = Reputation(totalHarvestsVerified: int, averageScore: int, scoreHistory: seq<HistoryEntry>)

  datatype Certificate = Certificate(
    certificateId: string,
    farmNodeId: string,
    currentHarvest: Harvest,
    farmerReputation: Reputation,
    blockchainHash: string,
    timestamp: string)

  // ---------------------------------------------------------------------------
  // Hex text

  predicate IsLowerHex(c: char) {
    '0' <= c <= '9' || 'a' <= c <= 'f'
  }

  predicate IsUpperHex(c: char) {
    '0' <= c <= '9' || 'A' <= c <= 'F'
  }

  /** What `hexdigest()` of SHA-256 returns. */
  predicate IsHexDigest(h: string) {
    |h| == DigestLength && forall i :: 0 <= i < |h| ==> IsLowerHex(h[i])
  }

  /** `str.upper` on ASCII letters; other characters are left alone. */
  function UpperChar(c: char): char {
    if 'a' <= c <= 'z' then (c as int - 32) as char else c
  }

  function LowerChar(c: char): char {
    if 'A' <= c <= 'Z' then (c as int + 32) as char else c
  }

  function Upper(s: string): (r: string)
    ensures |r| == |s|
    ensures forall k :: 0 <= k < |s| ==> IsLowerHex(s[k]) ==> IsUpperHex(r[k])
  {
    seq(|s|, k requires 0 <= k < |s| => UpperChar(s[k]))
  }

  function Lower(s: string): (r: string)
    ensures |r| == |s|
  {
    seq(|s|, k requires 0 <= k < |s| => LowerChar(s[k]))
  }

  /** Upper-casing lowercase hex loses nothing: lower-casing it again gives it back. */
  lemma UpperHexRoundTrip(s: string)
    requires forall k :: 0 <= k < |s| ==> IsLowerHex(s[k])
    ensures Lower(Upper(s)) == s
  {
    forall k | 0 <= k < |s| ensures Lower(Upper(s))[k] == s[k] {
      assert LowerChar(UpperChar(s[k])) == s[k];
    }
  }

  // ---------------------------------------------------------------------------
  // Decimal text of an integer (`str(n)`)

  function DigitChar(d: nat): char
    requires d < 10
  {
    ('0' as int + d) as char
  }

  function NatToDecimal(n: nat): (s: string)
    ensures |s| >= 1
    ensures forall k :: 0 <= k < |s| ==> '0' <= s[k] <= '9'
  {
    if n < 10 then [DigitChar(n)] else NatToDecimal(n / 10) + [DigitChar(n % 10)]
  }

  function IntToDecimal(n: int): (s: string)
    ensures |s| >= 1
    ensures s[0] == '-' <==> n < 0
  {
    if n < 0 then "-" + NatToDecimal(-n) else NatToDecimal(n)
  }

  /** The value of a string of decimal digits. */
  function DecimalValue(s: string): nat
    requires forall k :: 0 <= k < |s| ==> '0' <= s[k] <= '9'
  {
    if s == [] then 0 else DecimalValue(s[..|s| - 1]) * 10 + (s[|s| - 1] as int - '0' as int)
  }

  /** `int(s)` on the text `str(n)` produces: a minus sign, then digits. */
  function ParseInt(s: string): int
    requires |s| >= 1
    requires forall k :: 0 < k < |s| ==> '0' <= s[k] <= '9'
    requires s[0] != '-' ==> '0' <= s[0] <= '9'
  {
    if s[0] == '-' then -(DecimalValue(s[1..]) as int) else DecimalValue(s)
  }

  lemma {:induction false} NatDecimalRoundTrip(n: nat)
    ensures DecimalValue(NatToDecimal(n)) == n
  {
    if n >= 10 {
      NatDecimalRoundTrip(n / 10);
      var s := NatToDecimal(n);
      assert s[..|s| - 1] == NatToDecimal(n / 10);
    }
  }

  /** The decimal text of the score reads back as the score. */
  lemma IntDecimalRoundTrip(n: int)
    ensures ParseInt(IntToDecimal(n)) == n
  {
    if n < 0 {
      NatDecimalRoundTrip(-n);
      assert IntToDecimal(n)[1..] == NatToDecimal(-n);
    } else {
      NatDecimalRoundTrip(n);
    }
  }

  // ---------------------------------------------------------------------------
  // Identity

  /** The text that is hashed: farm, crop, score and instant joined by '-'. */
  function RawData(farmId: string, crop: string, score: int, instant: string): (raw: string)
    ensures |raw| == |farmId| + |crop| + |IntToDecimal(score)| + |instant| + 3
    ensures raw[..|farmId|] == farmId && raw[|farmId|] == '-'
    ensures raw[|raw| - |instant|..] == instant && raw[|raw| - |instant| - 1] == '-'
  {
    farmId + "-" + crop + "-" + IntToDecimal(score) + "-" + instant
  }

  /** Mintings for the same farm, crop and score at different instants hash different texts. */
  lemma RawDataSeparatesInstants(farmId: string, crop: string, score: int, instant1: string, instant2: string)
    requires instant1 != instant2
    ensures RawData(farmId, crop, score, instant1) != RawData(farmId, crop, score, instant2)
  {
    var prefix := farmId + "-" + crop + "-" + IntToDecimal(score) + "-";
    assert RawData(farmId, crop, score, instant1) == prefix + instant1;
    assert RawData(farmId, crop, score, instant2) == prefix + instant2;
    assert (prefix + instant1)[|prefix|..] == instant1;
    assert (prefix + instant2)[|prefix|..] == instant2;
  }

  // ---------------------------------------------------------------------------
  // Reputation

  /** The three draws of `random.randint` for the prior harvests. */
  datatype HistoryRolls = HistoryRolls(wheat: int, onion: int, tomato: int)

  predicate ValidRolls(r: HistoryRolls) {
    80 <= r.wheat <= 95 && 75 <= r.onion <= 90 && 85 <= r.tomato <= 98
  }

  /** The synthetic prior harvests, newest first. */
  function ScoreHistory(rolls: HistoryRolls): (h: seq<HistoryEntry>)
    ensures |h| == TotalHarvestsVerified - 1
    ensures ValidRolls(rolls) ==> 80 <= h[0].score <= 95 && 75 <= h[1].score <= 90 && 85 <= h[2].score <= 98
  {
    [ HistoryEntry("2024-06-15", "Wheat", rolls.wheat),
      HistoryEntry("2024-02-20", "Onion", rolls.onion),
      HistoryEntry("2023-11-10", "Tomato", rolls.tomato) ]
  }

  /** `sum(h['score'] for h in history)`, added from the front; it equals the sum added from the back. */
  function SumScores(h: seq<HistoryEntry>): (total: int)
    ensures h != [] ==> total == SumScores(h[..|h| - 1]) + h[|h| - 1].score
  {
    if h == [] then 0
    else
      assert h[1..] != [] ==> h[1..][..|h[1..]| - 1] == h[..|h| - 1][1..];
      h[0].score + SumScores(h[1..])
  }

  /** The sum over the synthetic history is the sum of the three draws. */
  lemma SumScoresOfHistory(rolls: HistoryRolls)
    ensures SumScores(ScoreHistory(rolls)) == rolls.wheat + rolls.onion + rolls.tomato
  {
    var h := ScoreHistory(rolls);
    assert h[..2][..1][..0] == [];
    assert SumScores(h[..1]) == rolls.wheat;
    assert SumScores(h[..2]) == rolls.wheat + rolls.onion by {
      assert h[..2][..1] == h[..1];
    }
    assert h[..3] == h && h[..3][..2] == h[..2];
  }

  /** The exact quotient truncated toward zero, as Python's `int(a / b)` gives for b > 0 while |a| < 2^53 (`/` divides in floating point). */
  function TruncDiv(a: int, b: int): (q: int)
    requires b > 0
    ensures a >= 0 ==> q * b <= a < (q + 1) * b
    ensures a < 0 ==> (q - 1) * b < a <= q * b
  {
    if a >= 0 then a / b else -((-a) / b)
  }

  /** The scores the average is taken over. */
  function AllScores(history: seq<HistoryEntry>, current: int): (s: seq<int>)
    ensures |s| == |history| + 1
  {
    seq(|history|, k requires 0 <= k < |history| => history[k].score) + [current]
  }

  function MinOf(s: seq<int>): (m: int)
    requires |s| > 0
    ensures forall k :: 0 <= k < |s| ==> m <= s[k]
    ensures exists k :: 0 <= k < |s| && m == s[k]
  {
    if |s| == 1 then s[0] else var rest := MinOf(s[1..]); if s[0] < rest then s[0] else rest
  }

  function MaxOf(s: seq<int>): (m: int)
    requires |s| > 0
    ensures forall k :: 0 <= k < |s| ==> s[k] <= m
    ensures exists k :: 0 <= k < |s| && m == s[k]
  {
    if |s| == 1 then s[0] else var rest := MaxOf(s[1..]); if s[0] < rest then rest else s[0]
  }

  /** The reputation average: the truncated mean of the three prior scores and the current one. */
  function AverageScore(history: seq<HistoryEntry>, current: int): (avg: int)
    requires |history| == TotalHarvestsVerified - 1
    ensures MinOf(AllScores(history, current)) <= avg <= MaxOf(AllScores(history, current))
  {
    var s := AllScores(history, current);
    assert SumScores(history) + current == s[0] + s[1] + s[2] + s[3] by {
      assert SumScores(history[2..]) == history[2].score + SumScores(history[3..]);
      assert history[3..] == [];
      assert history[1..][1..] == history[2..];
    }
    TruncDiv(SumScores(history) + current, TotalHarvestsVerified)
  }

  /** Strictly above the threshold is Grade A; there is no other tier than Grade B. */
  function Grade(score: int): (g: string)
    ensures g == GradeA <==> score > GradeThreshold
    ensures g == GradeB <==> score <= GradeThreshold
  {
    if score > GradeThreshold then GradeA else GradeB
  }

  // ---------------------------------------------------------------------------
  // Minting

  function MintDigitalIdentity(
    farmId: string, crop: string, currentScore: int,
    instant: string, issuedAt: string, sha256: string -> string, rolls: HistoryRolls): (c: Certificate)
    requires IsHexDigest(sha256(RawData(farmId, crop, currentScore, instant)))
    requires ValidRolls(rolls)
    // id and hash come from the single digest of the raw data
    ensures c.blockchainHash == HashPrefix + sha256(RawData(farmId, crop, currentScore, instant))
    ensures |c.blockchainHash| == |HashPrefix| + DigestLength
    ensures |c.certificateId| == |IdPrefix| + IdHexDigits && c.certificateId[..|IdPrefix|] == IdPrefix
    ensures forall k :: |IdPrefix| <= k < |c.certificateId| ==> IsUpperHex(c.certificateId[k])
    ensures c.certificateId[|IdPrefix|..] == Upper(c.blockchainHash[|HashPrefix|..|HashPrefix| + IdHexDigits])
    ensures Lower(c.certificateId[|IdPrefix|..]) == c.blockchainHash[|HashPrefix|..|HashPrefix| + IdHexDigits]
    // inputs copied unchanged, fixed tag, grade threshold
    ensures c.farmNodeId == farmId && c.currentHarvest.crop == crop && c.currentHarvest.trustScore == currentScore
    ensures c.currentHarvest.verificationMethod == VerificationMethod
    ensures c.currentHarvest.grade == GradeA <==> currentScore > GradeThreshold
    ensures c.currentHarvest.grade == GradeB <==> currentScore <= GradeThreshold
    // reputation
    ensures var rep := c.farmerReputation;
      && |rep.scoreHistory| == 3 && rep.totalHarvestsVerified == |rep.scoreHistory| + 1
      && rep.scoreHistory == ScoreHistory(rolls)
      && rep.averageScore == TruncDiv(rolls.wheat + rolls.onion + rolls.tomato + currentScore, TotalHarvestsVerified)
      && 80 <= rep.scoreHistory[0].score <= 95
      && 75 <= rep.scoreHistory[1].score <= 90
      && 85 <= rep.scoreHistory[2].score <= 98
      && MinOf(AllScores(rep.scoreHistory, currentScore)) <= rep.averageScore
      && rep.averageScore <= MaxOf(AllScores(rep.scoreHistory, currentScore))
    ensures c.timestamp == issuedAt
  {
    var hashId := sha256(RawData(farmId, crop, currentScore, instant));
    var history := ScoreHistory(rolls);
    var hash := HashPrefix + hashId;
    assert hash[|HashPrefix|..|HashPrefix| + IdHexDigits] == hashId[..IdHexDigits];
    UpperHexRoundTrip(hashId[..IdHexDigits]);
    var id := IdPrefix + Upper(hashId[..IdHexDigits]);
    assert id[..|IdPrefix|] == IdPrefix && id[|IdPrefix|..] == Upper(hashId[..IdHexDigits]);
    SumScoresOfHistory(rolls);
    var average := AverageScore(history, currentScore);
    assert average == TruncDiv(rolls.wheat + rolls.onion + rolls.tomato + currentScore, TotalHarvestsVerified);
    Certificate(
      id,
      farmId,
      Harvest(crop, currentScore, VerificationMethod, Grade(currentScore)),
      Reputation(TotalHarvestsVerified, average, history),
      hash,
      issuedAt)
  }

  /**
    Two mintings that differ only in the instant agree on grade and
    reputation, hash different texts, and differ in hash whenever SHA-256
    tells those texts apart.
  */
  lemma MintAtDifferentInstants(
    farmId: string, crop: string, score: int, instant1: string, instant2: string,
    issuedAt1: string, issuedAt2: string, sha256: string -> string, rolls: HistoryRolls)
    requires instant1 != instant2 && ValidRolls(rolls)
    requires IsHexDigest(sha256(RawData(farmId, crop, score, instant1)))
    requires IsHexDigest(sha256(RawData(farmId, crop, score, instant2)))
    ensures var c1 := MintDigitalIdentity(farmId, crop, score, instant1, issuedAt1, sha256, rolls);
      var c2 := MintDigitalIdentity(farmId, crop, score, instant2, issuedAt2, sha256, rolls);
      && c1.currentHarvest == c2.currentHarvest
      && c1.farmerReputation == c2.farmerReputation
      && RawData(farmId, crop, score, instant1) != RawData(farmId, crop, score, instant2)
      && (sha256(RawData(farmId, crop, score, instant1)) != sha256(RawData(farmId, crop, score, instant2)) ==>
            c1.blockchainHash != c2.blockchainHash)
  {
    RawDataSeparatesInstants(farmId, crop, score, instant1, instant2);
    var h1, h2 := sha256(RawData(farmId, crop, score, instant1)), sha256(RawData(farmId, crop, score, instant2));
    if h1 != h2 {
      assert (HashPrefix + h1)[|HashPrefix|..] == h1;
      assert (HashPrefix + h2)[|HashPrefix|..] == h2;
    }
  }
}
