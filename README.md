# Trust & Provenance certification engine, in Dafny

This project models the certification engine of the VeriYield dashboard and proves properties of the model:

- **Telemetry generator** (`utils/trustmesh.py`, `fetch_sensor_history`). It builds a 90-day series of soil and climate readings for a crop, one per consecutive calendar day, oldest first and ending today. Stress days lose 15 points of moisture and are counted. An irrigation cycle adds 10 points back when moisture is more than 5 below the crop's ideal. The trust score is `max(0, 100 - 5 * stress days)`.
- **Agent action log** (`generate_agentic_log`). It holds at most three alerts for the earliest stress days, then at most three confirmations for the latest irrigation days, then one fixed "harvest-ready" line.
- **Certificate minter** (`mint_digital_identity`). One SHA-256 digest of `"{farm}-{crop}-{score}-{instant}"` gives both the certificate id (`VY-` plus the first 8 hex characters, upper-cased) and the `0x`-prefixed blockchain hash. The minter also sets a grade threshold (`Grade A` above 85) and a four-harvest reputation built from three synthetic prior scores.
- **Certificate ledger** (`utils/shared_db.py`). It is one file holding the chain of certificates. Saving reads the whole chain, appends one certificate and rewrites the file. Reading returns the last certificate, or nothing.

Files:

- `wrappers.dfy`: `Option` and `Result`.
- `telemetry.dfy`: module `Telemetry`. It holds readings, the crop baseline, calendar days, one day's reading, the series, counting and selecting flagged readings, the trust score, and the imperative generator `FetchSensorHistory`.
- `agentic_log.dfy`: module `AgenticLog`. It holds the log as a value (`ExpectedLog`), the imperative builder `GenerateAgenticLog` with its two appending loops, the line text, and the lemmas that say which days get reported and in what order.
- `certificate.dfy`: module `Certificate`. It holds hex and decimal text, the hashed raw data, the reputation, and the minter `MintDigitalIdentity`.
- `ledger.dfy`: module `Ledger`. It holds the file state `Absent | Valid(chain) | Corrupt`, the specification functions `AfterSave` and `Latest`, and the class `CertificateStore`, whose field `file` `SaveCertificate` rewrites and `GetLatestCertificate` only reads.

The inputs the source gets from outside are parameters:

- The random draws: one `Draw` per day holding the noise, the stress coin and the humidity, plus three `HistoryRolls`. Each has the range its generator guarantees.
- The clock: `now` as a day ordinal, plus two strings for the minter's two clock reads.
- SHA-256: a function parameter. The minter requires only that its value on the raw data is 64 lowercase hex characters.

Behaviour of the code worth knowing:

- **Average.** The average score is `int((sum + score) / 4)`. The `/` is Python's float division and `int` truncates the float toward zero, so for negative sums this is not the floor. `TruncDiv` is the exact quotient truncated toward zero; it agrees with the float computation while the absolute value of the sum is below 2^53, which covers every score `TrustScore` can give.
- **History.** The history always has exactly three entries and the total is the constant 4. Reputation is synthetic and is not read from the ledger.
- **Unparseable file on save.** `save_certificate` silently replaces an unparseable file with a one-certificate chain. This loses the earlier certificates (`AfterSave` on `Corrupt`).
- **Unparseable file on read.** `get_latest_certificate` fails on an unparseable file, because nothing catches the parse error (`Latest` on `Corrupt` is a `Failure`).
- **No input checks.** Nothing rejects an empty farm id or crop.

One detail the proofs make visible: a stress day's alert reports the moisture *after* irrigation has added its 10 points back. It reports the ideal minus 3 to 7, not the depressed value (`DayReading`, `Alert`).

## Model

| member | source | states |
|---|---|---|
| `Telemetry.Baseline` | utils/trustmesh.py:22-27 | the crop "Tomato" gets moisture 60 and temperature 24; every other crop name gets 40 and 28 |
| `Telemetry.Reverse` | utils/trustmesh.py:19 | the reversed list has the same length, and element k is element n-1-k of the original |
| `Telemetry.DaysBack` | utils/trustmesh.py:18 | the list `[now - x for x in range(90)]` has 90 days, starts today and goes back one day at each step |
| `Telemetry.CalendarDays` | utils/trustmesh.py:18-19 | 90 days, each one day after the previous, oldest first, the last one being today |
| `Telemetry.DayReading` | utils/trustmesh.py:33-55 | a day is stressed iff the coin is above 0.95; irrigation happens iff the day is stressed; an irrigated day was more than 5 below the ideal before the correction; the moisture stays within 2 of the ideal on a normal day and within 3 to 7 below it on a stress day; the temperature stays within 2 of its ideal; the humidity is the drawn value |
| `Telemetry.SensorSeries` | utils/trustmesh.py:18-55 | 90 readings on consecutive days ending today, with irrigation equal to stress on every day |
| `Telemetry.FetchSensorHistory` | utils/trustmesh.py:13-60 | the loop builds exactly the specified series, and the returned score is the trust score of the number of stressed readings in it, so the counter agrees with the series |
| `Telemetry.TrustScore` | utils/trustmesh.py:58 | the score lies in [0,100]; it is 100 iff there are no abnormalities; it is 0 iff there are at least 20; otherwise it is 5 points lower per abnormality |
| `Telemetry.SeriesScoreFullIffNoStress` | utils/trustmesh.py:30-58 | a series scores 100 iff none of its readings is stressed |
| `Telemetry.Count` | utils/trustmesh.py:30-39 | the counter of flagged readings never exceeds the number of readings |
| `Telemetry.CountFullIffAll` | utils/trustmesh.py:30-39 | the counter equals the number of readings iff every reading is flagged |
| `Telemetry.Select` | utils/trustmesh.py:65 | the filtered rows number exactly the flagged readings, and each one is flagged and comes from the series |
| `Telemetry.SelectAt` | utils/trustmesh.py:65 | a flagged reading sits in the filtered rows at the index given by the number of flagged readings before it |
| `Telemetry.SelectOrigin` | utils/trustmesh.py:65 | every filtered row is a flagged reading with exactly as many flagged readings before it as its index |
| `Telemetry.SelectChronological` | utils/trustmesh.py:65 | filtering a chronological series keeps it chronological |
| `Telemetry.SelectAgreeingFlags` | utils/trustmesh.py:65-70 | when irrigation equals stress on every reading, the irrigation rows and the stress rows are the same |
| `AgenticLog.Head` | utils/trustmesh.py:67 | `head(3)` keeps min(3, n) rows and they are the first rows of the frame |
| `AgenticLog.Tail` | utils/trustmesh.py:71 | `tail(3)` keeps min(3, n) rows and they are the last rows of the frame |
| `AgenticLog.ExpectedLog` | utils/trustmesh.py:62-75 | the log has 1 + min(3, stress days) + min(3, irrigation days) lines, so between 1 and 7; the stress alerts come first, then the irrigation confirmations; the one terminal line is last and appears nowhere else; an alert (`Alert`) reports the day's date and soil moisture, a confirmation (`Confirmation`) the day's date only |
| `AgenticLog.GenerateAgenticLog` | utils/trustmesh.py:62-75 | the two appending loops and the final append produce exactly `ExpectedLog` of the series |
| `AgenticLog.AlertAt` | utils/trustmesh.py:65-68 | line j of the log, for j below the number of alerts, is the alert for the j-th stress day |
| `AgenticLog.ConfirmationAt` | utils/trustmesh.py:70-72 | the j-th confirmation line is the confirmation for the irrigation day at that position among the last min(3, n) irrigation days |
| `AgenticLog.LogText` | utils/trustmesh.py:64-75 | the returned list of strings has one string per log line, and the first character of each string tells the kind of its line; the harvest-ready line renders as the fixed text |
| `AgenticLog.ExpectedLogText` | utils/trustmesh.py:62-75 | as strings, the log is the alert texts, then the confirmation texts, then the harvest-ready text, whose mark appears on no earlier line |
| `AgenticLog.LineText` | utils/trustmesh.py:68-74 | the first character of a line's text tells its kind; the terminal line is the fixed harvest-ready text |
| `AgenticLog.StressDayReported` | utils/trustmesh.py:65-68 | a stress day preceded by fewer than 3 stress days is alerted, at the position equal to that number |
| `AgenticLog.StressAlertOrigin` | utils/trustmesh.py:65-68 | every alert reports a stress day preceded by fewer than 3 stress days, namely as many as there are alerts before it |
| `AgenticLog.IrrigationDayReported` | utils/trustmesh.py:70-72 | an irrigation day followed by fewer than 3 irrigation days is confirmed; the fewer days follow it, the later its line |
| `AgenticLog.IrrigationConfirmationOrigin` | utils/trustmesh.py:70-72 | every confirmation reports an irrigation day followed by fewer than 3 irrigation days, namely as many as there are confirmations after it |
| `AgenticLog.AlertsChronological` | utils/trustmesh.py:65-68 | on a chronological series the alerts are in strictly increasing date order |
| `AgenticLog.ConfirmationsChronological` | utils/trustmesh.py:70-72 | on a chronological series the confirmations are in strictly increasing date order |
| `AgenticLog.AgreeingFlagsLogPairs` | utils/trustmesh.py:65-72 | when irrigation equals stress, the log has as many confirmations as alerts; with at most 3 stress days they report the same days |
| `AgenticLog.GeneratedLogPairsAlerts` | utils/trustmesh.py:32-75 | on a generated series the alerts are chronological, and each alert is paired with a confirmation as above |
| `Certificate.Upper` | utils/trustmesh.py:94 | upper-casing keeps the length and turns lowercase hex into uppercase hex |
| `Certificate.UpperHexRoundTrip` | utils/trustmesh.py:94 | lower-casing the upper-cased hex gives back the original hex |
| `Certificate.NatToDecimal` | utils/trustmesh.py:82 | the decimal text of a natural number is non-empty and made of digits |
| `Certificate.IntToDecimal` | utils/trustmesh.py:82 | the decimal text of an integer starts with '-' iff the integer is negative |
| `Certificate.NatDecimalRoundTrip` | utils/trustmesh.py:82 | the digits read back as the number |
| `Certificate.IntDecimalRoundTrip` | utils/trustmesh.py:82 | the text of the score in the raw data reads back as the score |
| `Certificate.RawData` | utils/trustmesh.py:82 | the hashed text is the farm id, '-', the crop, '-', the score's decimal text, '-', and the instant, so it begins with the farm id and a '-', ends with '-' and the instant, and is 3 characters longer than its four parts |
| `Certificate.RawDataSeparatesInstants` | utils/trustmesh.py:82 | for the same farm, crop and score, different instants give different hashed texts |
| `Certificate.ScoreHistory` | utils/trustmesh.py:87-91 | there are 3 prior harvests, with scores in [80,95], [75,90] and [85,98] |
| `Certificate.SumScores` | utils/trustmesh.py:104 | the sum of a non-empty history is the sum without its last entry plus that entry's score |
| `Certificate.SumScoresOfHistory` | utils/trustmesh.py:87-104 | the three generated prior scores sum to the wheat, onion and tomato draws |
| `Certificate.Grade` | utils/trustmesh.py:100 | the grade is A iff the score is above 85, and B iff it is at most 85 |
| `Certificate.TruncDiv` | utils/trustmesh.py:104 | the quotient is rounded toward zero: it is the floor for a non-negative sum and the ceiling for a negative one |
| `Certificate.AverageScore` | utils/trustmesh.py:104 | the truncated mean of the 3 prior scores and the current score lies between the smallest and the largest of those four scores |
| `Certificate.MintDigitalIdentity` | utils/trustmesh.py:77-110 | the hash is "0x" plus the digest of the raw data, 66 characters long; the id is "VY-" plus 8 uppercase hex characters, namely the upper-cased first 8 characters of the hash after "0x", and lower-casing them gives those characters back; the farm, crop and score are copied unchanged; the verification tag is fixed; the grade is A iff the score is above 85, and B otherwise; the reputation has 3 history entries with scores in their ranges, a total of 4, and an average equal to the sum of the three drawn scores and the current score divided by 4 and truncated toward zero, which lies between the minimum and maximum of the four scores; the timestamp is the issuing time |
| `Certificate.MintAtDifferentInstants` | utils/trustmesh.py:82-107 | two mints that differ only in the instant have the same harvest block, grade and reputation; they hash different texts; their hashes differ whenever SHA-256 tells those texts apart. Both mints are given the same draws; the code draws fresh `randint` scores for each call (utils/trustmesh.py:88-90), so two real mints agree on the reputation only when those draws agree |
| `Ledger.LoadedChain` | utils/shared_db.py:9-16 | the chain loaded before a save is the file's chain when it parses, and empty when the file is absent or unparseable |
| `Ledger.AfterSave` | utils/shared_db.py:6-23 | after a save, the chain ends with the saved certificate; on a parseable chain it is one longer and every prior entry keeps its value and position; on an absent or unparseable file it is exactly the one certificate |
| `Ledger.Latest` | utils/shared_db.py:25-32 | the read fails iff the file is unparseable; it returns nothing iff the file is absent or holds an empty chain; otherwise it returns the last certificate |
| `Ledger.SaveThenLatest` | utils/shared_db.py:6-32 | right after a save, the latest certificate is the one just saved |
| `Ledger.SaveAllAppends` | utils/shared_db.py:6-23 | a run of saves appends all its certificates, in order, to the chain the first save started from |
| `Ledger.SavesFromAbsent` | utils/shared_db.py:9-23 | n saves from an absent file leave exactly those n certificates, and the last one is the latest |
| `Ledger.CertificateStore.constructor` | utils/shared_db.py:4 | the handle starts on the given file state |
| `Ledger.CertificateStore.SaveCertificate` | utils/shared_db.py:6-23 | the new file is the one `AfterSave` gives for the old file and the certificate |
| `Ledger.CertificateStore.GetLatestCertificate` | utils/shared_db.py:25-32 | returns what `Latest` gives: failure iff the file is unparseable, nothing iff it is absent or empty, and the last certificate otherwise; the method changes nothing |

## Left out

- Random number generation: the draws are parameters, restricted to the ranges `random.uniform`, `random.random` and `random.randint` produce.
- Floating point: moisture, temperature and humidity are exact reals. `round(x, 1)` is not applied, and the 0.95 stress threshold is the exact decimal.
- Certificate.TruncDiv: the `/` of the average is float division, so the source rounds the quotient to a double before truncating; the exact quotient used here matches it only while the absolute value of the sum is below 2^53, and the `OverflowError` the source raises for sums beyond the double range is not modelled.
- Certificate.MintDigitalIdentity: its average is the exact truncated quotient, which equals the source's `int((sum + score) / 4)` only while the absolute value of that sum is below 2^53 (for the sum 2^53 + 3 the source gives 2^51 + 1, the model 2^51); scores from `TrustScore` stay far below that.
- The clock: every reading of the series uses one `now`. The source reads `datetime.now()` once per day of the list, so a run that crosses midnight could skip or repeat a day. The model does not capture this.
- Date and number formatting: `strftime`, the f-string rendering of floats, and `str(datetime.now())`. Days are integer ordinals, the minter's two clock reads are strings handed in, and `LineText` takes the formatters as parameters.
- SHA-256 is a parameter. Nothing is assumed about it beyond its 64-character lowercase hex output on the hashed text.
- `Certificate.Upper` models `str.upper` on ASCII letters only. That is enough here, because it is applied only to hex digits.
- pandas: the DataFrame is a `seq<Reading>`. The boolean-mask filter, `head(3)` and `tail(3)` are `Select`, `Head` and `Tail`.
- Humidity is the drawn value. Nothing beyond that is stated about it.
- File I/O and JSON: the file is the `StoreState` value. Open and write failures, the `indent=4` encoding, and a parseable document that is not a list are not modelled.
- Concurrency: there is no lock in the code, and two concurrent saves can lose an update. The model is sequential.
- The `TrustMeshOracle` class: its `connection_status` field and the `mesh_agent` singleton hold no state that the three operations use, so the operations are plain members of their modules.
- There is no issue-certificate pipeline: no function in the source chains the generator, the log, the minter and the ledger.
- The dashboard (`app.py`), the market and buyer agents (`utils/ondc.py`, `utils/buyer_agent.py`): these are UI glue, web search and LLM calls.
