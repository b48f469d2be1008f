/**
 * The IMAP unread-mail status-line segment: normalising its keyword
 * arguments into a polling key, turning a STATUS reply into an unread count,
 * and deciding what to render for that count.
 */
module Mail {
  import opened Outcomes
  import opened Decimal
  import opened UnseenStatus

  /** `imaplib.IMAP4_SSL_PORT`, the implicit-TLS IMAP port. */
  const ImapSslPort: int := 993
  const DefaultServer: string := "imap.gmail.com"
  const DefaultFolder: string := "INBOX"

  // ---------------------------------------------------------------------------
  // Key normalisation

  /**
   * The keyword arguments the segment is configured with. `None` is an
   * argument left out; `otherArgs` stands for the arguments that belong to
   * rendering (`max_msgs`, `before`, ...), which the key swallows unused.
   */
  datatype KeyArgs = KeyArgs(
    username: string,
    password: string,
    server: Option<string>,
    port: Option<int>,
    folder: Option<string>,
    useSsl: Option<bool>,
    otherArgs: map<string, string>)

  /** One polling target: requests with equal keys share one background refresh. */
  datatype Key = Key(
    username: string,
    password: string,
    server: string,
    port: int,
    folder: string,
    useSsl: bool)

  /** Fills in the defaults and infers whether to use TLS from the port. */
  function MakeKey(args: KeyArgs): (k: Key)
    ensures k.username == args.username && k.password == args.password
    ensures args.server.Some? ==> k.server == args.server.value
    ensures args.server.None? ==> k.server == DefaultServer
    ensures args.port.Some? ==> k.port == args.port.value
    ensures args.port.None? ==> k.port == ImapSslPort
    ensures args.folder.Some? ==> k.folder == args.folder.value
    ensures args.folder.None? ==> k.folder == DefaultFolder
    ensures args.useSsl.Some? ==> k.useSsl == args.useSsl.value
    ensures args.useSsl.None? ==> (k.useSsl <==> k.port == ImapSslPort)
  {
    var port := args.port.GetOr(ImapSslPort);
    var useSsl := args.useSsl.GetOr(port == ImapSslPort);
    Key(args.username, args.password, args.server.GetOr(DefaultServer), port,
        args.folder.GetOr(DefaultFolder), useSsl)
  }

  /** A key spelled out as arguments, every one of them given. */
  function ExplicitArgs(k: Key, otherArgs: map<string, string>): (args: KeyArgs) {
    KeyArgs(k.username, k.password, Some(k.server), Some(k.port), Some(k.folder),
            Some(k.useSsl), otherArgs)
  }

  /** Normalising a key spelled out in full gives back that key. */
  lemma MakeKeyOfExplicitArgs(k: Key, otherArgs: map<string, string>)
    ensures MakeKey(ExplicitArgs(k, otherArgs)) == k
  {
  }

  /** Arguments that are not part of the key never split one polling target into two. */
  lemma KeyIgnoresOtherArgs(args: KeyArgs, otherArgs: map<string, string>)
    ensures MakeKey(args.(otherArgs := otherArgs)) == MakeKey(args)
  {
  }

  /**
   * Leaving `use_ssl` out and giving it as "port is 993" make the same key, so
   * both requests share one refresh.
   */
  lemma InferredSslSameKey(args: KeyArgs)
    requires args.useSsl.None?
    ensures MakeKey(args) == MakeKey(args.(useSsl := Some(args.port.GetOr(ImapSslPort) == ImapSslPort)))
  {
  }

  /** The connection class the key selects: `IMAP4_SSL` or plain `IMAP4`. */
  datatype Transport = Tls | Plain

  function TransportFor(key: Key): (t: Transport)
    ensures t == Tls <==> key.useSsl
  {
    if key.useSsl then Tls else Plain
  }

  /** Without `use_ssl`, the connection is TLS exactly when the port is 993. */
  lemma InferredTransport(args: KeyArgs)
    requires args.useSsl.None?
    ensures TransportFor(MakeKey(args)) == Tls <==> args.port.GetOr(ImapSslPort) == ImapSslPort
  {
  }

  // ---------------------------------------------------------------------------
  // Computing the state for a key

  /** Why a computation fails instead of producing a state. */
  datatype ComputeError =
    /** The reply has no `UNSEEN <digits>`: the search yields `None` and `.group` raises. */
    | NoUnseenItem

  /** Both credentials are non-empty, so neither `not key.username` nor `not key.password` holds. */
  predicate Configured(key: Key): (b: bool)
    ensures b <==> |key.username| > 0 && |key.password| > 0
  {
    key.username != "" && key.password != ""
  }

  /**
   * The state of one key, given the decoded STATUS reply the server sends for
   * its folder. `Ok(None)` is "unconfigured" (the source also warns then);
   * `Ok(Some(n))` is `n` unread messages.
   */
  function ComputeState(key: Key, reply: string): (r: Result<Option<nat>, ComputeError>)
    ensures !Configured(key) ==> r == Ok(None)
    ensures Configured(key) ==> (r.Err? <==> forall j :: !MatchesAt(reply, j))
    ensures Configured(key) && r.Ok? ==> r.value.Some?
    ensures r.Ok? && r.value.Some? ==>
      exists i :: IsFirstMatch(reply, i) && r.value.value == Value(Captured(reply, i))
  {
    if !Configured(key) then Ok(None)
    else match ParseUnseen(reply)
      case None => Err(NoUnseenItem)
      case Some(n) => Ok(Some(n))
  }

  /** An unconfigured key never looks at the server's reply. */
  lemma UnconfiguredIgnoresReply(key: Key, reply1: string, reply2: string)
    requires !Configured(key)
    ensures ComputeState(key, reply1) == ComputeState(key, reply2) == Ok(None)
  {
  }

  /** A configured key whose reply holds a match yields the digits captured at the leftmost one. */
  lemma ComputeStateAt(key: Key, reply: string, i: int)
    requires Configured(key) && IsFirstMatch(reply, i)
    ensures ComputeState(key, reply) == Ok(Some(Value(Captured(reply, i))))
  {
    ParseUnseenAt(reply, i);
  }

  /**
   * A reply in the shape of section 7.2.4 of RFC 3501, `<folder> (UNSEEN <n>)`,
   * yields `n`, provided the folder name itself does not already hold a match.
   */
  lemma ComputeStateOfStatusReply(key: Key, n: nat)
    requires Configured(key)
    requires forall m :: !MatchesAt(key.folder + " (", m)
    ensures ComputeState(key, key.folder + " (" + Tag + Show(n) + ")") == Ok(Some(n))
  {
    ParseUnseenRoundTrip(key.folder + " (", n, ")");
  }

  // ---------------------------------------------------------------------------
  // Rendering

  const DefaultHighlightGroup: string := "email_alert"
  const DefaultGradientGroup: string := "email_alert_gradient"

  /**
   * The count handed to rendering. Under Python 2, `int()` gives a `long`
   * rather than an `int` for values past `sys.maxint`; rendering treats those
   * differently (`type(unread_count) != int`).
   */
  datatype Count = Int(n: nat) | Long(n: nat)

  /** One segment of the status line. */
  datatype RenderItem = RenderItem(contents: string, highlightGroups: seq<string>, gradientLevel: Option<real>)

  /** The rendering keyword arguments; `None` is an argument left out. */
  datatype RenderArgs = RenderArgs(
    maxMsgs: Option<int>,
    highlightGroup: Option<string>,
    gradientGroup: Option<string>,
    before: Option<string>)

  /**
   * `min(count * 100 / max_msgs, 100)`, in exact arithmetic. Between 0 and 100
   * whenever `max_msgs` is positive; 100 once the count reaches `max_msgs`.
   */
  function GradientLevel(count: nat, maxMsgs: int): (level: real)
    requires maxMsgs != 0
    ensures level <= 100.0
    ensures maxMsgs > 0 ==> 0.0 <= level
    ensures maxMsgs > 0 && count >= maxMsgs ==> level == 100.0
    ensures maxMsgs > 0 && count < maxMsgs ==> level == 100.0 * (count as real) / (maxMsgs as real) < 100.0
    ensures maxMsgs < 0 ==> level == 100.0 * (count as real) / (maxMsgs as real)
    ensures maxMsgs < 0 && count > 0 ==> level < 0.0
  {
    var ratio := (count as real) * 100.0 / (maxMsgs as real);
    assert maxMsgs > 0 && count >= maxMsgs ==> 100.0 <= ratio by {
      if maxMsgs > 0 && count >= maxMsgs {
        var m := maxMsgs as real;
        assert ratio * m == (count as real) * 100.0 >= m * 100.0;
      }
    }
    if 100.0 < ratio then 100.0 else ratio
  }

  /** More unread mail never lowers the gradient level. */
  lemma GradientLevelMonotone(c1: nat, c2: nat, maxMsgs: int)
    requires c1 <= c2 && maxMsgs > 0
    ensures GradientLevel(c1, maxMsgs) <= GradientLevel(c2, maxMsgs)
  {
    var m := maxMsgs as real;
    assert (c1 as real) * 100.0 <= (c2 as real) * 100.0;
    assert (c1 as real) * 100.0 / m <= (c2 as real) * 100.0 / m;
  }

  /**
   * What the segment shows for a count: nothing for no count or zero, a flat
   * item without `max_msgs` (or for a non-`int` count), and a gradient item
   * otherwise. This is the intended behaviour; see RenderOneAsWritten for what
   * the source does.
   */
  function RenderOne(count: Option<Count>, args: RenderArgs): (r: Option<seq<RenderItem>>)
    ensures r.None? <==> count.None? || count.value.n == 0
    ensures r.Some? ==> |r.value| == 1
    ensures r.Some? ==> r.value[0].contents == args.before.GetOr("") + Show(count.value.n)
    ensures r.Some? ==>
      (r.value[0].gradientLevel.Some? <==> count.value.Int? && args.maxMsgs.Some? && args.maxMsgs.value != 0)
    ensures r.Some? && r.value[0].gradientLevel.None? ==>
      r.value[0].highlightGroups == [args.highlightGroup.GetOr(DefaultHighlightGroup)]
    ensures r.Some? && r.value[0].gradientLevel.Some? ==>
      && r.value[0].highlightGroups == [args.gradientGroup.GetOr(DefaultGradientGroup), args.highlightGroup.GetOr(DefaultHighlightGroup)]
      && r.value[0].gradientLevel.value == GradientLevel(count.value.n, args.maxMsgs.value)
  {
    match count
    case None => None
    case Some(c) =>
      if c.n == 0 then None
      else
        var contents := args.before.GetOr("") + Show(c.n);
        var group := args.highlightGroup.GetOr(DefaultHighlightGroup);
        if c.Long? || args.maxMsgs.None? || args.maxMsgs.value == 0 then
          Some([RenderItem(contents, [group], None)])
        else
          var level := GradientLevel(c.n, args.maxMsgs.value);
          Some([RenderItem(contents, [args.gradientGroup.GetOr(DefaultGradientGroup), group], Some(level))])
  }

  /** With a positive `max_msgs`, a rendered gradient level is a percentage. */
  lemma RenderedLevelIsPercentage(count: Option<Count>, args: RenderArgs)
    requires args.maxMsgs.Some? && args.maxMsgs.value > 0
    requires RenderOne(count, args).Some? && RenderOne(count, args).value[0].gradientLevel.Some?
    ensures 0.0 <= RenderOne(count, args).value[0].gradientLevel.value <= 100.0
  {
  }

  /**
   * The count a computed state hands to rendering. Under Python 3, `int()`
   * always gives an `int`; "unconfigured" is `None`.
   */
  function AsCount(state: Option<nat>): (c: Option<Count>)
    ensures c.None? <==> state.None?
    ensures c.Some? ==> c.value.Int? && c.value.n == state.value
  {
    match state
    case None => None
    case Some(n) => Some(Int(n))
  }

  /** An unconfigured key computes to "unconfigured", and that renders nothing. */
  lemma UnconfiguredRendersNothing(key: Key, reply: string, args: RenderArgs)
    requires !Configured(key)
    ensures ComputeState(key, reply).Ok?
    ensures RenderOne(AsCount(ComputeState(key, reply).value), args) == None
  {
  }

  /**
   * A configured key whose reply reports a non-zero count renders one item
   * showing `before` and that count.
   */
  lemma ComputedCountRenders(key: Key, reply: string, i: int, args: RenderArgs)
    requires Configured(key) && IsFirstMatch(reply, i) && Value(Captured(reply, i)) > 0
    ensures ComputeState(key, reply).Ok?
    ensures var r := RenderOne(AsCount(ComputeState(key, reply).value), args);
      r.Some? && |r.value| == 1 && r.value[0].contents == args.before.GetOr("") + Show(Value(Captured(reply, i)))
  {
    ComputeStateAt(key, reply, i);
  }

  /** The exceptions the source's `render_one` raises. */
  datatype PyError =
    /** `None + str(...)`: `before` was left out. */
    | TypeError
    /** The gradient branch names `highlight_group_gradient_`, which is not defined. */
    | NameError

  /**
   * `render_one` as written: `before` defaults to `None`, so any item fails to
   * build without it, and the gradient branch reads an undefined name. The
   * item's `contents` is evaluated before its groups, so a missing `before` is
   * reported first. Wherever the source succeeds it agrees with RenderOne.
   */
  function RenderOneAsWritten(count: Option<Count>, args: RenderArgs): (r: Result<Option<seq<RenderItem>>, PyError>)
    ensures r.Ok? <==>
      || count.None? || count.value.n == 0
      || (args.before.Some? && (count.value.Long? || args.maxMsgs.None? || args.maxMsgs.value == 0))
    ensures r.Ok? ==> r.value == RenderOne(count, args)
    ensures r == Err(NameError) <==>
      && count.Some? && count.value.n != 0 && count.value.Int?
      && args.maxMsgs.Some? && args.maxMsgs.value != 0 && args.before.Some?
  {
    match count
    case None => Ok(None)
    case Some(c) =>
      if c.n == 0 then Ok(None)
      else if args.before.None? then Err(TypeError)
      else if c.Long? || args.maxMsgs.None? || args.maxMsgs.value == 0 then
        Ok(Some([RenderItem(args.before.value + Show(c.n), [args.highlightGroup.GetOr(DefaultHighlightGroup)], None)]))
      else Err(NameError)
  }

  /** Five unread messages, `max_msgs` of ten, `before` given: the source raises where a half-full gradient is meant. */
  lemma AsWrittenGradientRaises()
    ensures RenderOneAsWritten(Some(Int(5)), RenderArgs(Some(10), None, None, Some("M "))) == Err(NameError)
    ensures RenderOne(Some(Int(5)), RenderArgs(Some(10), None, None, Some("M ")))
         == Some([RenderItem("M 5", ["email_alert_gradient", "email_alert"], Some(50.0))])
  {
    assert Show(5) == "5";
    assert "M " + Show(5) == "M 5";
    assert GradientLevel(5, 10) == 50.0;
  }

  /** Three unread messages and no `before`: the source raises where "3" is meant. */
  lemma AsWrittenOmittedBeforeRaises()
    ensures RenderOneAsWritten(Some(Int(3)), RenderArgs(None, None, None, None)) == Err(TypeError)
    ensures RenderOne(Some(Int(3)), RenderArgs(None, None, None, None))
         == Some([RenderItem("3", ["email_alert"], None)])
  {
    assert Show(3) == "3";
    assert "" + Show(3) == "3";
  }

  /** The documented examples: zero shows nothing, 50 of 100 is level 50, 150 of 100 is capped at 100. */
  lemma RenderExamples()
    ensures RenderOne(Some(Int(0)), RenderArgs(Some(100), None, None, Some(""))) == None
    ensures RenderOne(Some(Int(5)), RenderArgs(None, None, None, Some(""))) == Some([RenderItem("5", ["email_alert"], None)])
    ensures RenderOne(Some(Int(50)), RenderArgs(Some(100), None, None, Some(""))).value[0].gradientLevel == Some(50.0)
    ensures RenderOne(Some(Int(150)), RenderArgs(Some(100), None, None, Some(""))).value[0].gradientLevel == Some(100.0)
  {
    assert Show(5) == "5";
    assert "" + Show(5) == "5";
  }
}
