# fin-daily-report, modelled in Dafny

The program fetches a day's transactions from the Monobank API. It keeps the
expenses (debits in hryvnia) and groups them into spending categories by
merchant category code. It then renders a daily report and sends that report
to a Telegram chat. This project models the core of that program and proves
properties of the model:

- `common.dfy` (module `Common`): option and result types, and the decimal
  numeral JavaScript writes for a non-negative integer. It also holds
  substring search (`includes`) and the `response.ok` status test.
- `utils.dfy` (module `Utils`): `formatAmount` and
  `formatAmountWithSeparators`. Amounts are integer minor units (kopiykas).
  The two fraction digits come from integer division. The thousands
  separator regex is modelled by a recursive function on the digit string.
- `mono.dfy` (module `Mono`): the transaction record and `getStatement`.
  `GetStatement` is a method with the source's loop. It is proved equal to
  the recursive specification `Run`. Each request's outcome is an input: the
  status, the body text and what JSON decoding gives, or a rejected `fetch`.
  The backoff waits are returned as a list of delays.
- `report.dfy` (module `Report`): category lookup with the `originalMcc`
  fallback, the expense filter, and the aggregation loop of
  `categorizeTransactions`. That loop is a method over a `map` and the key
  insertion order, proved against the functions `FirstSeenKeys` and
  `BucketFor`. The module also has the stable sort by descending total and
  the rendering of the report text. The category table (`mcc_map.json`) and
  the date string are parameters.
- `telegram.dfy` (module `Telegram`): a message is a sequence of UTF-16 code
  units, because JavaScript's `length` counts those. The module has
  `text.split('\n')`, `trim()` with the ECMAScript whitespace set, and
  `chunkString`. The line buffer of `sendLongMessage` is specified as a fold
  (`Fold`, `LongMessages`), and the methods are proved against it. The HTTP
  exchange is a function `respond` from the request number to a reply. The
  methods return the messages they posted and the error, if any, that ended
  the delivery.

In these places the code behaves differently from what its error messages and
branches suggest; the model follows the code:

- Three 429 replies in a row do not end with the "Rate limit exceeded"
  error. Every one of the three attempts finds a delay in the list `[5000, 15000, 30000]`,
  so the loop runs out of attempts and throws the last error caught. No
  error was caught in that case, so the result is "Невідома помилка".
  `Mono.RateLimitErrorUnreachable` proves that the rate-limit error never
  surfaces, and `Mono.RateLimitedThrice` shows the three-429 run.
- A non-OK status other than 401, 403, 429 and 5xx is not fatal at once.
  Its error goes to the `catch` block, which retries at once, without a
  delay, unless the message mentions "Unauthorized" or "403" or this was
  the third attempt.
- The buffer of `sendLongMessage` can grow past 4096 code units. A blank
  buffer is not flushed, and the next line is appended to it. Every message
  sent is still at most 4096 code units long, because trimming removes the
  blank prefix (`Telegram.Bounded`).

## Model

| member | source | states |
|---|---|---|
| Common.NatToStringRoundTrip | src/report.ts:94 | Reading back the decimal numeral used in the report and in error messages gives the number; the numeral has no leading zero |
| Common.NumeralRoundTrip | src/report.ts:27 | Every canonical numeral is `String(n)` of the number it denotes, so `String(mcc)` can reach exactly the canonical keys of the table |
| Utils.FormatAmount | src/utils.ts:48-51 | The result is digits, a '.', and exactly two digits |
| Utils.FormatAmountRoundTrip | src/utils.ts:48-51 | The integer digits times 100 plus the two fraction digits equal the absolute amount in minor units; the integer part has a leading zero only when it is "0" |
| Utils.FormatAmountIgnoresSign | src/utils.ts:49 | Both formatters give the same text for an amount and its negation |
| Utils.SeparateRemoveSpaces | src/utils.ts:56 | The separator regex only inserts spaces: removing them gives the digits back |
| Utils.SeparateLength | src/utils.ts:56 | n digits get (n - 1) / 3 spaces |
| Utils.SeparateShort | src/utils.ts:56 | Up to three digits are left unchanged |
| Utils.SeparateSplit | src/utils.ts:56 | Four or more digits: the grouped text before the last three digits, a space, then those three digits |
| Utils.SeparateGroups | src/utils.ts:56 | The result is one to three digits, then groups of a space and three digits |
| Utils.FormatAmountWithSeparatorsShape | src/utils.ts:53-58 | Removing the spaces gives `formatAmount`; the '.' and the fraction are those of `formatAmount`; the integer part is grouped by thousands |
| Utils.FormatAmountThousands | src/utils.ts:53-58 | 250000 minor units give "2 500.00" |
| Utils.FormatAmountTens | src/utils.ts:53-58 | 5000 give "50.00" |
| Utils.FormatAmountBelowOne | src/utils.ts:53-58 | 99 give "0.99", and 0 gives "0.00" |
| Mono.GetStatement | src/mono.ts:29-97 | The loop's result, delays and request count are those of the specification `Run` from attempt 0; one to three requests are made |
| Mono.RunBounds | src/mono.ts:39-94 | From any attempt: at most three requests in all, at least one more if an attempt is left, delays only appended, and at most one delay per request |
| Mono.TryAttemptNeverRateLimitError | src/mono.ts:53-61 | On the first three attempts a 429 always finds a delay, so the rate-limit error is never thrown |
| Mono.RateLimitErrorUnreachable | src/mono.ts:53-96 | No run ends with the "Rate limit exceeded" error |
| Mono.SuccessIsLastResponseBody | src/mono.ts:75-81 | A successful run returns the decoded body of its last request unchanged, and that response had an OK status |
| Mono.UnauthorizedEndsRun | src/mono.ts:47-88 | 401 or 403 ends the run after this request, with no further delay and an error whose message contains "Unauthorized" |
| Mono.RateLimitedRetries | src/mono.ts:53-58 | A 429 waits `RETRY_DELAYS[attempt]`, keeps the error last caught, and goes on to the next attempt |
| Mono.ServerErrorRetries | src/mono.ts:64-73 | A status of 500 or more waits 5000 or 15000 on the first two attempts; on the third it fails with "Server error (status)" |
| Mono.OtherStatusRetriedWithoutDelay | src/mono.ts:75-93 | Any other non-OK status raises "status - body", which is retried at once, without a delay, unless it mentions "Unauthorized" or "403" or it was the last attempt |
| Mono.ThrownRetriedWithoutDelay | src/mono.ts:80-93 | A rejected `fetch` and a body that is not valid JSON take the same path: retried at once, rethrown on the last attempt |
| Mono.OkReturnsBody | src/mono.ts:80-81 | An OK status whose body decodes ends the run with that body |
| Mono.UnauthorizedFirstAttempt | src/mono.ts:47-51 | A 401 on the first request: one request, no delay, and the unauthorized error |
| Mono.RateLimitThenSuccess | src/mono.ts:53-81 | Responses 429, 429, 200: delays 5000 then 15000, then the third body |
| Mono.RateLimitedThrice | src/mono.ts:39-96 | Three 429s wait 5000, 15000 and 30000, then fail with the unknown error |
| Mono.NetworkFailureThenRateLimited | src/mono.ts:39-96 | A network failure then two 429s: no delay for the failure, 15000 and 30000 for the 429s, and the network error at the end |
| Report.CategoryResolution | src/report.ts:21-30 | The category is the table entry whose key is the canonical decimal numeral of `originalMcc` when present and non-zero, else of `mcc`; with no such key it is "Інше" / "❓"; an entry under a non-canonical key such as "0742" is never reached |
| Report.FilterExpenses | src/report.ts:32-44 | The filter keeps no more transactions than it is given |
| Report.FilterExpensesSingle | src/report.ts:32-44 | A transaction is kept exactly when its amount is negative and its currency code is 980 |
| Report.FilterExpensesMembers | src/report.ts:32-44 | A transaction is in the result if and only if it is in the input and is an expense |
| Report.FilterExpensesAppend | src/report.ts:32-44 | The filter distributes over concatenation, so input order is kept |
| Report.NoExpenses | src/report.ts:32-44 | Input with no expense gives an empty result |
| Report.NonExpensesIgnored | src/report.ts:32-44 | Inserting credits or foreign-currency transactions anywhere leaves the expenses unchanged |
| Report.CategorizeTransactions | src/report.ts:46-72 | The loop over the map gives the buckets `Categorized`: one per key, in order of first occurrence |
| Report.Record | src/report.ts:52-68 | One iteration keeps the loop invariant `Tracks`: the insertion order is the first-seen keys of the prefix, and each key's bucket is the one those transactions determine |
| Report.TracksStep | src/report.ts:56-68 | Adding a new key to the order when it is unseen, giving that key's bucket (fresh if new) one more transaction, and keeping the other buckets advances `Tracks` by one transaction |
| Report.Values | src/report.ts:86 | `Array.from(map.values())` lists, in insertion order, the value of each key |
| Report.TracksValues | src/report.ts:86 | At the end of the loop, the map's values in insertion order are `Categorized` |
| Report.FirstSeenKeysHasKey | src/report.ts:56-63 | A key has a bucket exactly when some transaction has that key |
| Report.FirstSeenKeysDistinct | src/report.ts:56-63 | No key is inserted twice |
| Report.CategorizedBuckets | src/report.ts:46-72 | Each bucket holds all transactions with its key, in input order; its count is their number and its total the sum of their absolute amounts; keys are distinct; every transaction lies in a bucket |
| Report.CategorizedConservation | src/report.ts:46-72 | The bucket totals add up to the sum of the absolute amounts, and the counts to the number of transactions |
| Report.SortByTotalSorted | src/report.ts:86-88 | The sorted buckets have non-increasing totals, and there are as many as before |
| Report.SortByTotalPermutes | src/report.ts:86-88 | The sort is a permutation of its input |
| Report.SortByTotalStable | src/report.ts:86-88 | Buckets with equal totals keep their relative order |
| Report.SortByTotalSums | src/report.ts:86-88 | Sorting keeps the sum of the totals and of the counts |
| Report.GenerateReport | src/report.ts:74-101 | No expense: the header and "Сьогодні витрат не було.", whatever else the input holds; otherwise the header, the summary of all expenses, and one line per bucket in sorted order |
| Report.AppendCategoryLines | src/report.ts:96-98 | The loop appends one line per bucket, in order |
| Report.ReportLinesAddUp | src/report.ts:84-98 | The printed category lines have totals adding up to the summary total and counts adding up to the number of expenses |
| Report.GetTransactionStats | src/report.ts:103-116 | `total` is the number of transactions; `expenses` and `expensesCount` are both the number of expenses, at most `total` |
| Telegram.TrimShape | src/telegram.ts:51 | `trim()` gives a slice of the text with only whitespace before and after it, and starts and ends with a non-whitespace unit |
| Telegram.TrimEmpty | src/telegram.ts:51 | The trimmed text is empty if and only if the text is all whitespace |
| Telegram.VisibleTrim | src/telegram.ts:51 | Trimming keeps every non-whitespace unit |
| Telegram.SplitLinesNoLineFeed | src/telegram.ts:46 | `split('\n')` gives pieces without line feeds |
| Telegram.SplitJoin | src/telegram.ts:46 | Joining the pieces with line feeds gives the text back |
| Telegram.JoinSplit | src/telegram.ts:46 | Splitting a join of pieces without line feeds gives the pieces back |
| Telegram.VisibleJoin | src/telegram.ts:65 | Joining lines with line feeds adds no visible unit |
| Telegram.ChunkString | src/telegram.ts:98-104 | The loop returns `Chunks`: consecutive slices of `chunkSize` units, the last possibly shorter |
| Telegram.ChunksCount | src/telegram.ts:98-104 | There are ceil(n / k) chunks, and none for the empty text |
| Telegram.ChunksFlatten | src/telegram.ts:98-104 | The chunks concatenate to the text |
| Telegram.ChunksLengths | src/telegram.ts:98-104 | Every chunk has 1 to k units, and all but the last have exactly k |
| Telegram.FlushBounded | src/telegram.ts:51-54 | A flush sends only a sendable message and leaves a blank buffer |
| Telegram.StepBounded | src/telegram.ts:49-66 | One iteration keeps `Bounded`: every message sent is 1 to 4096 units, and the buffer is at most 4096 once leading whitespace is dropped |
| Telegram.FoldBounded | src/telegram.ts:49-66 | The loop keeps `Bounded` over any number of lines |
| Telegram.MessagesBounded | src/telegram.ts:16-70 | `sendMessage` never sends more than 4096 units in one message, and on the long path never sends an empty one |
| Telegram.LongLineBypassesBuffer | src/telegram.ts:50-62 | A line over 4096 units is never buffered: a non-blank buffer is sent first, then the line's chunks |
| Telegram.SingleLongLine | src/telegram.ts:56-62 | A long text with no line feed is sent as its chunks, at least two messages |
| Telegram.FlushContent | src/telegram.ts:51-54 | A flush loses no visible unit |
| Telegram.StepContent | src/telegram.ts:49-66 | One iteration adds exactly the line's visible units after those already sent or buffered |
| Telegram.FoldContent | src/telegram.ts:49-66 | After the loop, the sent messages and the buffer hold the lines' visible units in order |
| Telegram.LongMessagesContent | src/telegram.ts:41-71 | The messages of the long path, put together, have exactly the visible units of the text, in order |
| Telegram.StepExtends | src/telegram.ts:49-66 | An iteration and a flush only append to the messages sent |
| Telegram.FoldPrefix | src/telegram.ts:49-66 | The messages sent after some lines come first among those sent after all of them |
| Telegram.DeliveredUnique | src/telegram.ts:73-96 | The messages planned and the replies determine which requests are made and how delivery ends |
| Telegram.SendSingleMessage | src/telegram.ts:73-96 | Posts the text as the next request; no error if and only if the reply is a response with an OK status; a non-OK response raises "Telegram API: status - data" and a rejected `fetch` passes its own error on |
| Telegram.Send | src/telegram.ts:52 | One awaited send of the next planned message either succeeds or ends delivery as `Delivered` describes |
| Telegram.SendAll | src/telegram.ts:57-60 | Sends the chunks in order and stops at the first rejection |
| Telegram.SendLine | src/telegram.ts:49-66 | The loop body for one line either moves the messages sent and the buffer to `Step`, or ends delivery with the first rejection |
| Telegram.SendLongMessage | src/telegram.ts:41-71 | Posts the messages `LongMessages(text)` in order, stopping at and reporting the first rejected one |
| Telegram.SendMessage | src/telegram.ts:9-39 | Up to 4096 units: one request with the text unchanged, and an error if and only if it is rejected; longer: the long path; in both cases `Delivered` for `Messages(text)` |

## Left out

- Dates: `formatDate`, `getTodayRange` and `getYesterdayRange` of `src/utils.ts` read the clock and the time zone. The report's date string is a parameter of `GenerateReport` instead.
- `getYesterdayStatement` and `getTodayStatement` only compute a time range from the clock before calling `getStatement`.
- `src/index.ts` is not part of this model. It loads the configuration from the environment, runs the stages in order and reports the error.
- The contents of `mcc_map.json` are not modelled. The table is a parameter.
- I/O: the request URLs, headers, tokens, `chatId`, `parse_mode` and the JSON request bodies are not modelled. Each reply is an input.
- `console.warn` and `setTimeout` are not modelled. The delays are returned instead of waited.
- Exceptions are modelled as `Result` and `Option` values.
- A rejected `fetch` is modelled by the message of its error (`error.message`; for a rejection that is not an `Error`, `String(error)`), in `getStatement` and in both Telegram send functions (`Telegram.Reply.Failed`).
- A failing `response.text()` in `getStatement` is not modelled. The body text is an input.
- The cast `as MonobankTransaction[]` in `getStatement` checks nothing at run time: an OK body that is valid JSON but not a list of transactions is returned as it is. The model's decoded body is always a list of transactions, so it does not capture that case.
- The `errorData` of a `Telegram.Reply.Response` stands for `JSON.stringify` of the decoded error body, or `{}`. It is an opaque string.
- Utils.FormatAmount: JavaScript floating point and `toFixed` are not modelled. The same digits come from integer division of the minor units. The model does not cover non-integer amounts, or amounts beyond the precision of a double.
- The report is a Dafny `string`, whereas Telegram's `Text` is a sequence of UTF-16 code units. The encoding step between them is not modelled, so the report's length in code units is not modelled either.
- Telegram.ChunkString: requires `chunkSize > 0`. With 0 the source's loop never ends, and its only caller passes 4096.
- Report.SortByTotal: the model is a stable insertion sort. It does not model the engine's sorting algorithm, only that algorithm's result, which a stable sort with the comparator `b.total - a.total` fixes.
- Report.GetTransactionStats: `getTransactionStats` computes `totalAmount` but never returns it, so the model leaves it out.
- The transaction fields that the core never reads are carried in the `Transaction` datatype, but no operation uses them.
