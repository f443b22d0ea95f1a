/**
 * `DiagnosticReporterService`: classifies every captured failure as an
 * error, an informational message or nothing, formats it into the error or
 * the info block, and at the end hands each non-empty block to its sink.
 */
module DiagnosticReporter {
  import opened Wrappers
  import opened Runtime
  import opened Options
  import opened TextLines
  import opened MessagesBuilder
  import opened Sequences

  /** A failure raised by a probe, with the assembly, type and member (`None`: the type initializer) it came from. */
  datatype CapturedFailure = CapturedFailure(exception: Exception, assembly: Module, typeInfo: TypeDesc, member: Option<MemberInfo>)

  /** Where `AddError` puts a failure. */
  datatype Disposition = ToErrors | ToInfos | Dropped

  /** A call of one of the caller's sinks, with the text it receives. */
  datatype SinkCall = InfoSinkCall(text: string) | ErrorSinkCall(text: string)

  /** The treat-as-info predicate is set and accepts the failure. */
  predicate TreatAsInfo(o: ReportingOptions, f: CapturedFailure) {
    o.treatErrorAsInfoPredicate.Some?
    && o.treatErrorAsInfoPredicate.value(f.exception, f.assembly, f.typeInfo, f.member)
  }

  /**
   * The decision `AddError` takes. A failure goes to the error block when it
   * is not treated as info and the error predicate (absent: accept) accepts
   * it; to the info block when it is treated as info, an info sink exists
   * and the info predicate (absent: accept) accepts it; otherwise nowhere.
   */
  function Classify(o: ReportingOptions, hasInfoSink: bool, f: CapturedFailure): (d: Disposition)
    ensures d == ToErrors <==>
              !TreatAsInfo(o, f) && AcceptsFailure(o.reportErrorPredicate, f.exception, f.assembly, f.typeInfo, f.member)
    ensures d == ToInfos <==>
              TreatAsInfo(o, f) && hasInfoSink && AcceptsFailure(o.reportInfoPredicate, f.exception, f.assembly, f.typeInfo, f.member)
    ensures TreatAsInfo(o, f) ==> d != ToErrors
    ensures !hasInfoSink || o.treatErrorAsInfoPredicate.None? ==> d != ToInfos
  {
    if !TreatAsInfo(o, f) then
      if AcceptsFailure(o.reportErrorPredicate, f.exception, f.assembly, f.typeInfo, f.member) then ToErrors else Dropped
    else if hasInfoSink && AcceptsFailure(o.reportInfoPredicate, f.exception, f.assembly, f.typeInfo, f.member) then ToInfos
    else Dropped
  }

  /** The report lines of one failure, in their fixed order; the member line only for a member. */
  function ReportLines(e: Exception, assembly: Module, t: TypeDesc, member: Option<MemberInfo>): seq<string> {
    ["EXCEPTION: " + e.typeName, "  MESSAGE: " + e.message]
    + (if member.Some? then ["   MEMBER: " + member.value.Name()] else [])
    + ["     TYPE: " + t.fullName, " ASSEMBLY: " + assembly.fullName]
  }

  /**
   * Appending the lines `l0`, `l1`, the optional `l2` and `l3` each with its
   * line break, then `l4` without one, joins them by line breaks.
   */
  lemma AppendedLinesJoin(l0: string, l1: string, l2: Option<string>, l3: string, l4: string)
    ensures var text := AppendLine(AppendLine("", l0), l1);
            var text := if l2.Some? then AppendLine(text, l2.value) else text;
            AppendLine(text, l3) + l4 == JoinLines([l0, l1] + (if l2.Some? then [l2.value] else []) + [l3, l4])
  {
    assert AppendLine("", l0) == JoinLines([l0]) + NewLine;
    AppendLineJoins([l0], l1);
    assert [l0] + [l1] == [l0, l1];
    var text := AppendLine(AppendLine("", l0), l1);
    var shown: seq<string> := [l0, l1];
    if l2.Some? {
      AppendLineJoins(shown, l2.value);
      text, shown := AppendLine(text, l2.value), shown + [l2.value];
    }
    assert text == JoinLines(shown) + NewLine;
    AppendLineJoins(shown, l3);
    JoinLinesSnoc(shown + [l3], l4);
    assert [l0, l1] + (if l2.Some? then [l2.value] else []) + [l3, l4] == shown + [l3] + [l4];
  }

  /**
   * `FormatReportMessage`: the lines EXCEPTION, MESSAGE, MEMBER (only for
   * a member) and TYPE each appended with its line break, then the
   * ASSEMBLY line without one; that is, the report lines joined by line
   * breaks with none after the last.
   */
  function FormatReportMessage(e: Exception, assembly: Module, t: TypeDesc, member: Option<MemberInfo>): (r: string)
    ensures r == JoinLines(ReportLines(e, assembly, t, member))
  {
    var text := AppendLine("", "EXCEPTION: " + e.typeName);
    var text := AppendLine(text, "  MESSAGE: " + e.message);
    var text := if member.Some? then AppendLine(text, "   MEMBER: " + member.value.Name()) else text;
    var text := AppendLine(text, "     TYPE: " + t.fullName);
    AppendedLinesJoin(
      "EXCEPTION: " + e.typeName, "  MESSAGE: " + e.message,
      if member.Some? then Some("   MEMBER: " + member.value.Name()) else None,
      "     TYPE: " + t.fullName, " ASSEMBLY: " + assembly.fullName);
    text + (" ASSEMBLY: " + assembly.fullName)
  }

  /** The line a piece of text would be rendered on holds no line break of its own. */
  predicate SingleLine(s: string) {
    '\n' !in s
  }

  /** Two pieces without a line break make a piece without one. */
  lemma SingleLineConcat(a: string, b: string)
    requires SingleLine(a) && SingleLine(b)
    ensures SingleLine(a + b)
  {
  }

  /** The report lines: EXCEPTION, MESSAGE, MEMBER only for a member, TYPE, ASSEMBLY. */
  lemma ReportLinesShape(e: Exception, assembly: Module, t: TypeDesc, member: Option<MemberInfo>)
    ensures var lines := ReportLines(e, assembly, t, member);
            && |lines| == (if member.Some? then 5 else 4)
            && lines[0] == "EXCEPTION: " + e.typeName
            && lines[1] == "  MESSAGE: " + e.message
            && (member.Some? ==> lines[2] == "   MEMBER: " + member.value.Name())
            && lines[|lines| - 2] == "     TYPE: " + t.fullName
            && lines[|lines| - 1] == " ASSEMBLY: " + assembly.fullName
  {
  }

  /** Each report line is a single line when the names and the message it shows are. */
  lemma ReportLinesAreSingle(e: Exception, assembly: Module, t: TypeDesc, member: Option<MemberInfo>)
    requires SingleLine(e.typeName) && SingleLine(e.message) && SingleLine(t.fullName) && SingleLine(assembly.fullName)
    requires member.Some? ==> SingleLine(member.value.Name())
    ensures forall k :: 0 <= k < |ReportLines(e, assembly, t, member)| ==> SingleLine(ReportLines(e, assembly, t, member)[k])
  {
    var lines := ReportLines(e, assembly, t, member);
    var l0, l1 := "EXCEPTION: " + e.typeName, "  MESSAGE: " + e.message;
    var l3, l4 := "     TYPE: " + t.fullName, " ASSEMBLY: " + assembly.fullName;
    SingleLineConcat("EXCEPTION: ", e.typeName);
    SingleLineConcat("  MESSAGE: ", e.message);
    SingleLineConcat("     TYPE: ", t.fullName);
    SingleLineConcat(" ASSEMBLY: ", assembly.fullName);
    if member.Some? {
      SingleLineConcat("   MEMBER: ", member.value.Name());
      assert lines == [l0, l1, "   MEMBER: " + member.value.Name(), l3, l4];
    } else {
      assert lines == [l0, l1, l3, l4];
    }
  }

  /**
   * Read back line by line, a formatted message has the lines EXCEPTION,
   * MESSAGE, MEMBER (exactly when there is a member), TYPE and ASSEMBLY in
   * this order, and nothing after the ASSEMBLY line.
   */
  lemma FormatReportMessageLines(e: Exception, assembly: Module, t: TypeDesc, member: Option<MemberInfo>)
    requires SingleLine(e.typeName) && SingleLine(e.message) && SingleLine(t.fullName) && SingleLine(assembly.fullName)
    requires member.Some? ==> SingleLine(member.value.Name())
    ensures var lines := SplitLines(FormatReportMessage(e, assembly, t, member));
            && |lines| == (if member.Some? then 5 else 4)
            && lines[0] == "EXCEPTION: " + e.typeName
            && lines[1] == "  MESSAGE: " + e.message
            && (member.Some? ==> lines[2] == "   MEMBER: " + member.value.Name())
            && lines[|lines| - 2] == "     TYPE: " + t.fullName
            && lines[|lines| - 1] == " ASSEMBLY: " + assembly.fullName
  {
    var lines := ReportLines(e, assembly, t, member);
    ReportLinesAreSingle(e, assembly, t, member);
    SplitJoinLines(lines);
    ReportLinesShape(e, assembly, t, member);
    assert SplitLines(FormatReportMessage(e, assembly, t, member)) == lines;
  }

  /** The messages of the failures `Classify` sends to `d`, formatted, in the order they were captured. */
  function Block(o: ReportingOptions, hasInfoSink: bool, failures: seq<CapturedFailure>, d: Disposition): (messages: seq<string>)
    ensures |messages| <= |failures|
  {
    if failures == [] then []
    else
      var f := failures[|failures| - 1];
      Block(o, hasInfoSink, failures[..|failures| - 1], d)
      + (if Classify(o, hasInfoSink, f) == d then [FormatReportMessage(f.exception, f.assembly, f.typeInfo, f.member)] else [])
  }

  /** One more failure adds its message to the block `Classify` sends it to, and nothing to another block. */
  lemma BlockSnoc(o: ReportingOptions, hasInfoSink: bool, failures: seq<CapturedFailure>, f: CapturedFailure, d: Disposition)
    ensures Block(o, hasInfoSink, failures + [f], d)
            == Block(o, hasInfoSink, failures, d)
               + (if Classify(o, hasInfoSink, f) == d then [FormatReportMessage(f.exception, f.assembly, f.typeInfo, f.member)] else [])
  {
    assert (failures + [f])[..|failures|] == failures;
  }

  /** The message of every failure sent to a block is in that block. */
  lemma {:induction false} BlockHoldsSent(o: ReportingOptions, hasInfoSink: bool, failures: seq<CapturedFailure>, d: Disposition, k: nat)
    requires k < |failures| && Classify(o, hasInfoSink, failures[k]) == d
    ensures FormatReportMessage(failures[k].exception, failures[k].assembly, failures[k].typeInfo, failures[k].member)
              in Block(o, hasInfoSink, failures, d)
    decreases |failures|
  {
    var n := |failures|;
    var earlier := failures[..n - 1];
    assert earlier + [failures[n - 1]] == failures;
    BlockSnoc(o, hasInfoSink, earlier, failures[n - 1], d);
    if k < n - 1 {
      assert earlier[k] == failures[k];
      BlockHoldsSent(o, hasInfoSink, earlier, d, k);
    }
  }

  /** Every message of a block is the message of a failure sent to it. */
  lemma {:induction false} BlockHoldsOnlySent(o: ReportingOptions, hasInfoSink: bool, failures: seq<CapturedFailure>, d: Disposition, m: string)
    requires m in Block(o, hasInfoSink, failures, d)
    ensures exists k :: 0 <= k < |failures| && Classify(o, hasInfoSink, failures[k]) == d
              && m == FormatReportMessage(failures[k].exception, failures[k].assembly, failures[k].typeInfo, failures[k].member)
    decreases |failures|
  {
    var n := |failures|;
    var earlier := failures[..n - 1];
    assert earlier + [failures[n - 1]] == failures;
    BlockSnoc(o, hasInfoSink, earlier, failures[n - 1], d);
    if m in Block(o, hasInfoSink, earlier, d) {
      BlockHoldsOnlySent(o, hasInfoSink, earlier, d, m);
      var k :| 0 <= k < |earlier| && Classify(o, hasInfoSink, earlier[k]) == d
               && m == FormatReportMessage(earlier[k].exception, earlier[k].assembly, earlier[k].typeInfo, earlier[k].member);
      assert failures[k] == earlier[k];
    } else {
      assert Classify(o, hasInfoSink, failures[n - 1]) == d;
    }
  }

  /** A block lists exactly the failures sent to it: each one's message is in it, and each of its messages is one's. */
  lemma BlockMembers(o: ReportingOptions, hasInfoSink: bool, failures: seq<CapturedFailure>, d: Disposition)
    ensures forall k :: 0 <= k < |failures| && Classify(o, hasInfoSink, failures[k]) == d ==>
              FormatReportMessage(failures[k].exception, failures[k].assembly, failures[k].typeInfo, failures[k].member)
                in Block(o, hasInfoSink, failures, d)
    ensures forall m :: m in Block(o, hasInfoSink, failures, d) ==>
              exists k :: 0 <= k < |failures| && Classify(o, hasInfoSink, failures[k]) == d
                && m == FormatReportMessage(failures[k].exception, failures[k].assembly, failures[k].typeInfo, failures[k].member)
  {
    forall k | 0 <= k < |failures| && Classify(o, hasInfoSink, failures[k]) == d
      ensures FormatReportMessage(failures[k].exception, failures[k].assembly, failures[k].typeInfo, failures[k].member)
                in Block(o, hasInfoSink, failures, d)
    {
      BlockHoldsSent(o, hasInfoSink, failures, d, k);
    }
    forall m | m in Block(o, hasInfoSink, failures, d)
      ensures exists k :: 0 <= k < |failures| && Classify(o, hasInfoSink, failures[k]) == d
                && m == FormatReportMessage(failures[k].exception, failures[k].assembly, failures[k].typeInfo, failures[k].member)
    {
      BlockHoldsOnlySent(o, hasInfoSink, failures, d, m);
    }
  }

  /** Failures captured in two batches fill each block with the first batch's messages, then the second's. */
  lemma {:induction false} BlockConcat(o: ReportingOptions, hasInfoSink: bool, first: seq<CapturedFailure>, second: seq<CapturedFailure>, d: Disposition)
    ensures Block(o, hasInfoSink, first + second, d) == Block(o, hasInfoSink, first, d) + Block(o, hasInfoSink, second, d)
    decreases |second|
  {
    if second == [] {
      assert first + second == first;
    } else {
      var n := |second|;
      var init, last := second[..n - 1], second[n - 1];
      var tail := if Classify(o, hasInfoSink, last) == d then [FormatReportMessage(last.exception, last.assembly, last.typeInfo, last.member)] else [];
      assert second == init + [last];
      assert first + second == (first + init) + [last];
      BlockSnoc(o, hasInfoSink, first + init, last, d);
      BlockSnoc(o, hasInfoSink, init, last, d);
      BlockConcat(o, hasInfoSink, first, init, d);
      AppendAssociative(Block(o, hasInfoSink, first, d), Block(o, hasInfoSink, init, d), tail);
    }
  }

  /**
   * What `ReportResults` hands to the sinks: the info block first, when
   * there is an info sink and the block is not empty, then the error block
   * when it is not empty; each sink receives the whole text of its block.
   */
  function Flush(hasInfoSink: bool, infoMessages: seq<string>, errorMessages: seq<string>): (calls: seq<SinkCall>)
    ensures |calls| == (if hasInfoSink && infoMessages != [] then 1 else 0) + (if errorMessages != [] then 1 else 0)
    ensures hasInfoSink && infoMessages != [] ==> calls[0] == InfoSinkCall(Render(infoMessages))
    ensures errorMessages != [] ==> calls[|calls| - 1] == ErrorSinkCall(Render(errorMessages))
    ensures forall k :: 0 <= k < |calls| ==> calls[k].text != ""
  {
    (if hasInfoSink && infoMessages != [] then [InfoSinkCall(Render(infoMessages))] else [])
    + (if errorMessages != [] then [ErrorSinkCall(Render(errorMessages))] else [])
  }

  class DiagnosticReporterService {
    /** `_ReportInfoMessagesMethod != null`; the error sink is always present. */
    const hasInfoSink: bool
    const reportingOptions: ReportingOptions
    const errorMessagesBuilder: MessagesBuilderService
    /** Present exactly when there is an info sink. */
    const infoMessagesBuilder: MessagesBuilderService?

    /** Every failure `AddError` received, in order. */
    ghost var Failures: seq<CapturedFailure>
    ghost const Repr: set<object>

    ghost predicate Valid()
      reads this, Repr
    {
      && Repr == {this, errorMessagesBuilder} + (if infoMessagesBuilder != null then {infoMessagesBuilder} else {})
      && (infoMessagesBuilder != null <==> hasInfoSink)
      && infoMessagesBuilder != errorMessagesBuilder
      && errorMessagesBuilder.Valid()
      && errorMessagesBuilder.Messages == Block(reportingOptions, hasInfoSink, Failures, ToErrors)
      && (infoMessagesBuilder != null ==>
            && infoMessagesBuilder.Valid()
            && infoMessagesBuilder.Messages == Block(reportingOptions, hasInfoSink, Failures, ToInfos))
    }

    /** A fresh reporter: empty blocks, and an info block only when there is an info sink. */
    constructor (hasInfoSink: bool, reportingOptions: ReportingOptions)
      ensures Valid() && fresh(Repr)
      ensures this.hasInfoSink == hasInfoSink && this.reportingOptions == reportingOptions
      ensures Failures == []
      ensures infoMessagesBuilder != null <==> hasInfoSink
    {
      this.hasInfoSink := hasInfoSink;
      this.reportingOptions := reportingOptions;
      var errors := new MessagesBuilderService();
      errorMessagesBuilder := errors;
      var infos: MessagesBuilderService? := null;
      var infoRepr: set<object> := {};
      if hasInfoSink {
        var builder := new MessagesBuilderService();
        infos, infoRepr := builder, {builder};
      }
      infoMessagesBuilder := infos;
      Repr := {this, errors} + infoRepr;
      Failures := [];
    }

    /**
     * `AddError`: the failure's message is appended to the block `Classify`
     * chooses, or to neither; the other block is left as it was.
     */
    method AddError(exception: Exception, assembly: Module, t: TypeDesc, member: Option<MemberInfo>)
      requires Valid()
      modifies Repr
      ensures Valid()
      ensures Failures == old(Failures) + [CapturedFailure(exception, assembly, t, member)]
      ensures errorMessagesBuilder.Messages == old(errorMessagesBuilder.Messages)
                + (if Classify(reportingOptions, hasInfoSink, CapturedFailure(exception, assembly, t, member)) == ToErrors
                   then [FormatReportMessage(exception, assembly, t, member)] else [])
      ensures infoMessagesBuilder != null ==>
                infoMessagesBuilder.Messages == old(infoMessagesBuilder.Messages)
                + (if Classify(reportingOptions, hasInfoSink, CapturedFailure(exception, assembly, t, member)) == ToInfos
                   then [FormatReportMessage(exception, assembly, t, member)] else [])
    {
      ghost var failure := CapturedFailure(exception, assembly, t, member);
      ghost var disposition := Classify(reportingOptions, hasInfoSink, failure);
      BlockSnoc(reportingOptions, hasInfoSink, Failures, failure, ToErrors);
      BlockSnoc(reportingOptions, hasInfoSink, Failures, failure, ToInfos);

      var treatErrorAsInfo :=
        reportingOptions.treatErrorAsInfoPredicate != None
        && reportingOptions.treatErrorAsInfoPredicate.value(exception, assembly, t, member);

      if !treatErrorAsInfo {
        if reportingOptions.reportErrorPredicate.None?
           || reportingOptions.reportErrorPredicate.value(exception, assembly, t, member)
        {
          assert disposition == ToErrors;
          var formattedErrorMessage := FormatReportMessage(exception, assembly, t, member);
          errorMessagesBuilder.AddMessage(formattedErrorMessage);
        } else {
          assert disposition == Dropped;
        }
      } else {
        assert disposition != ToErrors;
        if infoMessagesBuilder != null {
          AddInfo(exception, assembly, t, member);
        } else {
          assert disposition == Dropped;
        }
      }
      Failures := Failures + [failure];
    }

    /** `AddInfo`: append to the info block when the info predicate is absent or accepts. */
    method AddInfo(exception: Exception, assembly: Module, t: TypeDesc, member: Option<MemberInfo>)
      requires infoMessagesBuilder != null && infoMessagesBuilder.Valid()
      modifies infoMessagesBuilder
      ensures infoMessagesBuilder.Valid()
      ensures infoMessagesBuilder.Messages == old(infoMessagesBuilder.Messages)
                + (if AcceptsFailure(reportingOptions.reportInfoPredicate, exception, assembly, t, member)
                   then [FormatReportMessage(exception, assembly, t, member)] else [])
    {
      if reportingOptions.reportInfoPredicate.None?
         || reportingOptions.reportInfoPredicate.value(exception, assembly, t, member)
      {
        var formattedInfoMessage := FormatReportMessage(exception, assembly, t, member);
        infoMessagesBuilder.AddMessage(formattedInfoMessage);
      }
    }

    /** `ReportResults`: the sink calls `Flush` prescribes for the two blocks of everything captured. */
    method ReportResults() returns (calls: seq<SinkCall>)
      requires Valid()
      ensures calls == Flush(hasInfoSink,
                             Block(reportingOptions, hasInfoSink, Failures, ToInfos),
                             Block(reportingOptions, hasInfoSink, Failures, ToErrors))
    {
      calls := [];
      if hasInfoSink && infoMessagesBuilder != null {
        var any := infoMessagesBuilder.Any();
        if any {
          var combinedInfoMessages := infoMessagesBuilder.ToString();
          calls := calls + [InfoSinkCall(combinedInfoMessages)];
        }
      }

      var anyErrors := errorMessagesBuilder.Any();
      if anyErrors {
        var combinedErrorMessages := errorMessagesBuilder.ToString();
        calls := calls + [ErrorSinkCall(combinedErrorMessages)];
      }
    }
  }
}
