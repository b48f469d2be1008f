# IMAP unread-mail segment: a Dafny model

This project models the pure core of powerline's IMAP e-mail segment
(`powerline/segments/common/mail.py`). The segment shows how many unread
messages an IMAP folder holds. The model covers three parts:

- **Key normalisation** (`EmailIMAPSegment.key`). A sparse bag of keyword arguments
  becomes a six-field polling key `(username, password, server, port, folder, use_ssl)`.
  Absent fields get defaults: server `imap.gmail.com`, port 993 (`IMAP4_SSL_PORT`) and
  folder `INBOX`. When `use_ssl` is absent, it becomes "port is 993".
- **State computation** (the pure part of `compute_state`). A key without a username or
  password gives "unconfigured". Otherwise the unread count is read from the decoded
  STATUS reply with the search `UNSEEN (\d+)`. This is the `UNSEEN` status item of
  sections 6.3.10 and 7.2.4 of RFC 3501. The model is a leftmost-match scanner, a
  greedy digit run and a decimal conversion. A reply without a match is an error.
- **Rendering** (`render_one`). A count and the rendering options give one of three
  results: nothing, one flat item, or one gradient item whose level is
  `min(count * 100 / max_msgs, 100)`.

Modules:

- `Outcomes` holds Option and Result.
- `Decimal` holds `str(n)` and `int(s)` on ASCII digits, with both round trips.
- `UnseenStatus` holds the STATUS reply parser and its round-trip lemma.
- `Mail` holds the key, the compute state and rendering, both as written and as intended.

The source is pure in these parts, so the model is functions and lemmas.

The source does not always match the segment's description; the model follows the code:

- The doc-comment of the segment (lines 69-72) says the level is 100 whenever there are more
  messages than `max_msgs`. With a negative `max_msgs` the code instead gives the negative
  level `count * 100 / max_msgs`. `GradientLevel` states that value.
- `max_msgs = 0` counts as "no maximum" and gives a flat item.

## Model

| member | source | states |
|---|---|---|
| Mail.MakeKey | powerline/segments/common/mail.py:19-23 | username and password pass through. A given server, port, folder or use_ssl is kept. Absent ones become imap.gmail.com, 993 and INBOX. An absent use_ssl is true exactly when the resulting port is 993 |
| Mail.MakeKeyOfExplicitArgs | powerline/segments/common/mail.py:20-23 | normalising a key whose every field is given returns that key unchanged |
| Mail.KeyIgnoresOtherArgs | powerline/segments/common/mail.py:20 | extra keyword arguments (the ones swallowed by `**kwargs`) never change the key |
| Mail.InferredSslSameKey | powerline/segments/common/mail.py:21-22 | leaving use_ssl out gives the same key as passing it as "port == 993", so both requests share one polling target |
| Mail.TransportFor | powerline/segments/common/mail.py:29-32 | the TLS connection class (`IMAP4_SSL`) is chosen exactly when the key's use_ssl is true, plain `IMAP4` otherwise |
| Mail.InferredTransport | powerline/segments/common/mail.py:29-32 | when use_ssl is left out, the TLS connection class is chosen exactly when the effective port is 993 |
| Mail.Configured | powerline/segments/common/mail.py:26 | a key is configured exactly when both its username and its password are non-empty |
| Mail.ComputeState | powerline/segments/common/mail.py:25-37 | an empty username or password gives "unconfigured" (`Ok(None)`). For a configured key the result is an error exactly when no `UNSEEN ` followed by a digit occurs, and is otherwise a count, never "unconfigured". A count is the value of the digits captured at the leftmost match |
| Mail.ComputeStateAt | powerline/segments/common/mail.py:36-37 | for a configured key and any reply whose leftmost match is at i, the result is the value of the digits captured at i |
| Mail.UnconfiguredIgnoresReply | powerline/segments/common/mail.py:26-28 | for an unconfigured key, the result is the same "unconfigured" state whatever the reply, so no parse takes place |
| Mail.ComputeStateOfStatusReply | powerline/segments/common/mail.py:34-37 | for a configured key, a reply `<folder> (UNSEEN <n>)` yields exactly n, provided the folder name holds no match itself |
| UnseenStatus.Captured | powerline/segments/common/mail.py:36 | the group `(\d+)` of a match captures at least one digit and nothing else |
| UnseenStatus.FindMatch | powerline/segments/common/mail.py:36 | the search returns a matching index with no match between the start and it, or returns nothing when no index from the start matches |
| UnseenStatus.ParseUnseen | powerline/segments/common/mail.py:36 | there is no value exactly when no `UNSEEN ` is directly followed by a digit. Any value is the decimal value of the digits captured at the leftmost match |
| UnseenStatus.ParseUnseenRoundTrip | powerline/segments/common/mail.py:36 | `prefix + "UNSEEN " + str(n) + suffix` parses to n, when prefix holds no match and suffix does not start with a digit |
| UnseenStatus.ParseUnseenAt | powerline/segments/common/mail.py:36 | the parse returns the value of the digits at the one leftmost match |
| Decimal.LeadingDigits | powerline/segments/common/mail.py:36 | the greedy `\d+` run is all digits and is stopped only by the end of the text or by a non-digit |
| Decimal.Value | powerline/segments/common/mail.py:36 | `int()` of one digit is that digit, and a leading zero does not change the value |
| Decimal.ValueOfShow | powerline/segments/common/mail.py:36 | `int(str(n)) == n` for every natural n |
| Decimal.Show | powerline/segments/common/mail.py:45 | `str(n)` is a non-empty string of digits with no leading zero ("0" for zero) |
| Decimal.ShowOfValue | powerline/segments/common/mail.py:45 | `str(int(s)) == s` for every canonical digit string, so `str` is the inverse of `int` on its range |
| Mail.GradientLevel | powerline/segments/common/mail.py:52 | the level is at most 100. It is at least 0 when max_msgs is positive. It is exactly 100 once the count reaches max_msgs, and `100 * count / max_msgs` (below 100) before that. For a negative max_msgs it is exactly `100 * count / max_msgs`, negative for a non-zero count |
| Mail.GradientLevelMonotone | powerline/segments/common/mail.py:69-72 | with a positive max_msgs, more unread messages never lower the gradient level |
| Mail.RenderOne | powerline/segments/common/mail.py:39-53 | nothing exactly for an absent or zero count. Otherwise exactly one item, with contents `before + str(count)`. A gradient level is present exactly for an `int` count with a non-zero max_msgs, so the division never sees zero. Flat groups are `[highlight_group]`; gradient groups are `[gradient_group, highlight_group]` in that order, with level GradientLevel |
| Mail.RenderedLevelIsPercentage | powerline/segments/common/mail.py:52 | with a positive max_msgs, any rendered gradient level lies in [0, 100] |
| Mail.AsCount | powerline/segments/common/mail.py:37 | a computed state reaches rendering as an `int` count with the same value, and "unconfigured" as no count |
| Mail.UnconfiguredRendersNothing | powerline/segments/common/mail.py:41-42 | an unconfigured key computes to "unconfigured", and rendering that state shows nothing |
| Mail.ComputedCountRenders | powerline/segments/common/mail.py:36-45 | a configured key whose reply reports a non-zero count renders exactly one item whose contents are `before` followed by that count |
| Mail.RenderOneAsWritten | powerline/segments/common/mail.py:39-53 | the code as written succeeds exactly for an absent or zero count, or for a flat item with `before` given. It raises NameError exactly in the gradient branch with `before` given, and TypeError otherwise. Whenever it succeeds, it equals RenderOne |
| Mail.AsWrittenGradientRaises | powerline/segments/common/mail.py:51 | 5 unread messages with max_msgs 10 raise NameError as written; the intended item has level 50 |
| Mail.AsWrittenOmittedBeforeRaises | powerline/segments/common/mail.py:40-45 | 3 unread messages without `before` raise TypeError as written; the intended item shows "3" |
| Mail.RenderExamples | powerline/segments/common/mail.py:41-52 | a zero count shows nothing. 5 without max_msgs shows "5" flat. 50 of 100 gives level 50. 150 of 100 is capped at level 100 |

## Findings

| source | as written | input that shows it | evidently intended | confidence | as-written member | corrected member |
|---|---|---|---|---|---|---|
| powerline/segments/common/mail.py:51 | the gradient item names `highlight_group_gradient_`, which is not defined; the parameter is `highlight_group_gradient`, so the branch raises NameError | unread count 5, `max_msgs` 10, `before` "M " | groups `[highlight_group_gradient, highlight_group]` and level 50 | high (not executed) | Mail.AsWrittenGradientRaises | Mail.RenderOne |
| powerline/segments/common/mail.py:40 | `before` defaults to `None`, so `before + str(unread_count)` (lines 45 and 50) raises TypeError whenever `before` is left out and the count is non-zero | unread count 3, no other arguments | contents "3", with `before` defaulting to the empty string | medium (not executed) | Mail.AsWrittenOmittedBeforeRaises | Mail.RenderOne |

## Left out

- The IMAP connection, login and STATUS command (lines 29-34) are left out. They are network I/O through `imaplib`. The decoded reply is a parameter of `ComputeState`, and only the choice of connection class is modelled, as `TransportFor`.
- The UTF-8 decoding of the reply (line 35) is left out. The parser works on an already decoded string.
- UnseenStatus.ParseUnseen: digits are the ASCII '0'..'9' only. Under Python 3, `\d` and `int()` also accept other Unicode decimal digits. Here a non-ASCII digit ends the digit run, and a match whose first digit is non-ASCII is skipped. Such replies may therefore fail to parse here, or give a different count ("UNSEEN 1" followed by an Arabic-Indic three gives 1 here and 13 in the source). Under Python 2, where the pattern is compiled without `re.UNICODE`, only ASCII digits match and the model is exact.
- UnseenStatus.ParseUnseen: Python 3.11 and later refuse `int()` on digit strings longer than the interpreter's limit (4300 digits by default). The model converts digit runs of any length.
- `self.warn(...)` (line 27) is a logging side channel. It is not modelled; "unconfigured" is the `Ok(None)` result.
- Mail.MakeKey: models username and password as strings. A `None` credential behaves in the source like an empty one in the guard at line 26, but it is not representable here. An explicit `server=None`, `port=None` or `folder=None` is not representable either: the source keeps that `None` in the key (and `port=None` gives `use_ssl` false), while `None` in `KeyArgs` means "left out" and takes the default. Only for `use_ssl` does the source itself treat an explicit `None` as left out.
- The failure semantics of a computation that raises are left out. `KwThreadedSegment` (line 9) decides them, together with the background threads, the per-key deduplication and the 60-second refresh interval (line 17). That module is not part of this model, and its point is concurrency.
- The `with_docstring` wrapper and the formatting of the doc-comment (lines 56-89) are documentation plumbing.
- Mail.GradientLevel: uses exact `real` division. The source's IEEE floating-point rounding is not modelled.
- Mail.RenderOne: an explicit `highlight_group=None` or `highlight_group_gradient=None` is not representable. The source puts that `None` into the highlight groups, while `None` in `RenderArgs` means "left out" and takes the default group. For `max_msgs` and `before`, an explicit `None` is the source's own default, so there the two agree.
- Mail.RenderOne: a Python 2 `long` is represented only as the `Long` case. The threshold at which `int()` switches to `long` is not modelled.
