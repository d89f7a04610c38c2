/** The SOAP envelope of the streamed scan submission, built as literal text
    fragments with the request's fields spliced in between (no escaping is applied),
    and the reading that recovers those fields from the text. */
module Envelope {
  import opened Wrappers
  import opened Decimal
  import opened Protocol

  /** `lits[0] fields[0] lits[1] ... fields[n-1] lits[n]`. */
  function Interleave(lits: seq<string>, fields: seq<string>): (text: string)
    requires |lits| == |fields| + 1
    ensures |lits[0]| <= |text|
    ensures |lits[0]| > 0 ==> text[0] == lits[0][0]
    decreases |fields|
  {
    if fields == [] then lits[0]
    else lits[0] + fields[0] + Interleave(lits[1..], fields[1..])
  }

  /** The longest prefix of `s` without `stop`. */
  function UpTo(s: string, stop: char): (p: string)
    ensures |p| <= |s| && p == s[..|p|]
    ensures stop !in p
    ensures |p| < |s| ==> s[|p|] == stop
    decreases |s|
  {
    if s == [] || s[0] == stop then [] else [s[0]] + UpTo(s[1..], stop)
  }

  /** Reads `text` as laid out by `Interleave` with literal fragments `lits`: each
      field runs from the end of the fragment before it up to the next '<'. */
  function Extract(lits: seq<string>, text: string): Option<seq<string>>
    requires |lits| >= 1
    decreases |lits|
  {
    var lit := lits[0];
    if !(|lit| <= |text| && text[..|lit|] == lit) then None
    else if |lits| == 1 then
      if |text| == |lit| then Some([]) else None
    else
      var rest := text[|lit|..];
      var field := UpTo(rest, '<');
      match Extract(lits[1..], rest[|field|..])
      case None => None
      case Some(fields) => Some([field] + fields)
  }

  /** Every fragment after the first opens with a tag, so it ends the field before it. */
  predicate Delimited(lits: seq<string>) {
    forall i :: 1 <= i < |lits| ==> |lits[i]| > 0 && lits[i][0] == '<'
  }

  /** Text that cannot be mistaken for the start of a tag. */
  predicate MarkupFree(s: string) {
    '<' !in s
  }

  lemma {:induction false} UpToStopsAtTag(a: string, b: string)
    requires MarkupFree(a)
    requires |b| > 0 && b[0] == '<'
    ensures UpTo(a + b, '<') == a
    decreases |a|
  {
    if a == [] {
      assert a + b == b;
    } else {
      assert (a + b)[0] == a[0];
      assert (a + b)[1..] == a[1..] + b;
      UpToStopsAtTag(a[1..], b);
      assert [a[0]] + a[1..] == a;
    }
  }

  /** One step of `Extract`: a fragment, a markup-free field, then the rest. */
  lemma ExtractStep(lits: seq<string>, field: string, later: string, fields: seq<string>)
    requires |lits| >= 2
    requires MarkupFree(field)
    requires |later| > 0 && later[0] == '<'
    requires Extract(lits[1..], later) == Some(fields)
    ensures Extract(lits, lits[0] + field + later) == Some([field] + fields)
  {
    var lit := lits[0];
    var rest := field + later;
    var text := lit + rest;
    assert text == lits[0] + field + later;
    assert text[..|lit|] == lit;
    assert text[|lit|..] == rest;
    UpToStopsAtTag(field, later);
    assert rest[|field|..] == later;
    assert |lits| != 1;
  }

  /** Fields without '<' are read back exactly as they were spliced in. */
  lemma {:induction false} ExtractInterleave(lits: seq<string>, fields: seq<string>)
    requires |lits| == |fields| + 1
    requires Delimited(lits)
    requires forall i :: 0 <= i < |fields| ==> MarkupFree(fields[i])
    ensures Extract(lits, Interleave(lits, fields)) == Some(fields)
    decreases |fields|
  {
    if fields != [] {
      var later := Interleave(lits[1..], fields[1..]);
      assert Delimited(lits[1..]) by {
        forall i | 1 <= i < |lits[1..]|
          ensures |lits[1..][i]| > 0 && lits[1..][i][0] == '<'
        {
          assert lits[1..][i] == lits[i + 1];
        }
      }
      ExtractInterleave(lits[1..], fields[1..]);
      assert later[0] == lits[1][0];
      ExtractStep(lits, fields[0], later, fields[1..]);
      assert [fields[0]] + fields[1..] == fields;
    }
  }

  /** Two interleavings joined by a field form one interleaving of all fragments. */
  lemma {:induction false} InterleaveJoin(p: seq<string>, f: seq<string>, x: string, q: seq<string>, g: seq<string>)
    requires |p| == |f| + 1 && |q| == |g| + 1
    ensures Interleave(p, f) + x + Interleave(q, g) == Interleave(p + q, f + [x] + g)
    decreases |f|
  {
    if f == [] {
      assert (p + q)[1..] == q;
      assert ([x] + g)[1..] == g;
    } else {
      InterleaveJoin(p[1..], f[1..], x, q, g);
      assert (p + q)[1..] == p[1..] + q;
      assert (f + [x] + g)[1..] == f[1..] + [x] + g;
    }
  }

  /** The fragments of the envelope head; the last one opens the `ZippedFile`
      element the blob is streamed into. */
  const HeadLiterals: seq<string> := [
    "<?xml version=\"1.0\" encoding=\"utf-8\"?>\n"
    + "<soap:Envelope xmlns:xsi=\"http://www.w3.org/2001/XMLSchema-instance\" xmlns:xsd=\"http://www.w3.org/2001/XMLSchema\" xmlns:soap=\"http://schemas.xmlsoap.org/soap/envelope/\">\n"
    + "  <soap:Body>\n"
    + "    <Scan xmlns=\"http://Checkmarx.com/v7\">\n"
    + "      <sessionId>",
    "</sessionId>\n"
    + "      <args>\n"
    + "        <PrjSettings>\n"
    + "          <projectID>",
    "</projectID>\n"
    + "          <ProjectName>",
    "</ProjectName>\n"
    + "          <PresetID>",
    "</PresetID>\n"
    + "          <AssociatedGroupID>",
    "</AssociatedGroupID>\n"
    + "          <ScanConfigurationID>",
    "</ScanConfigurationID>\n"
    + "          <Description></Description>\n"
    + "        </PrjSettings>\n"
    + "        <SrcCodeSettings>\n"
    + "          <SourceOrigin>",
    "</SourceOrigin>\n"
    + "          <UserCredentials>\n"
    + "            <User></User>\n"
    + "            <Pass></Pass>\n"
    + "          </UserCredentials>\n"
    + "          <PathList>\n"
    + "            <ScanPath xsi:nil=\"true\" />\n"
    + "            <ScanPath xsi:nil=\"true\" />\n"
    + "          </PathList>\n"
    + "          <PackagedCode>\n"
    + "            <ZippedFile>"
  ]

  /** The fragments of the envelope tail, which closes the `ZippedFile` element. */
  const TailLiterals: seq<string> := [
    "</ZippedFile>\n"
    + "            <FileName>src.zip</FileName>\n"
    + "          </PackagedCode>\n"
    + "          <SourcePullingAction>",
    "</SourcePullingAction>\n"
    + "        </SrcCodeSettings>\n"
    + "        <IsPrivateScan>false</IsPrivateScan>\n"
    + "        <IsIncremental>false</IsIncremental>\n"
    + "      </args>\n"
    + "    </Scan>\n"
    + "  </soap:Body>\n"
    + "</soap:Envelope>"
  ]

  /** Java string concatenation of a possibly null session id. */
  function SessionText(session: Option<string>): string {
    match session
    case Some(s) => s
    case None => "null"
  }

  /** The values spliced into the head, in order: the session id, the project id,
      project name, preset id, associated group id and scan configuration id of the
      project settings, and the source origin. Ids are spliced in as decimal text
      that reads back to the same number. */
  function HeadFields(session: Option<string>, args: ScanArgs): (fields: seq<string>)
    ensures |fields| + 1 == |HeadLiterals|
    ensures fields[0] == SessionText(session)
    ensures Parse(fields[1]) == Some(args.projectSettings.projectId)
    ensures fields[2] == args.projectSettings.projectName
    ensures Parse(fields[3]) == Some(args.projectSettings.presetId)
    ensures fields[4] == args.projectSettings.associatedGroupId
    ensures Parse(fields[5]) == Some(args.projectSettings.scanConfigurationId)
    ensures fields[6] == args.sourceCodeSettings.sourceOrigin
  {
    var project := args.projectSettings;
    ParseToString(project.projectId);
    ParseToString(project.presetId);
    ParseToString(project.scanConfigurationId);
    [ SessionText(session),
      ToString(project.projectId),
      project.projectName,
      ToString(project.presetId),
      project.associatedGroupId,
      ToString(project.scanConfigurationId),
      args.sourceCodeSettings.sourceOrigin ]
  }

  /** The envelope head: it carries every head field, each recoverable from the text
      when the text fields hold no '<'. */
  function Head(session: Option<string>, args: ScanArgs): (h: string)
    ensures PlainFields(session, args) ==> Extract(HeadLiterals, h) == Some(HeadFields(session, args))
  {
    var fields := HeadFields(session, args);
    assert PlainFields(session, args) ==> Extract(HeadLiterals, Interleave(HeadLiterals, fields)) == Some(fields) by {
      if PlainFields(session, args) {
        LiteralsDelimited();
        HeadFieldsMarkupFree(session, args);
        ExtractInterleave(HeadLiterals, fields);
      }
    }
    Interleave(HeadLiterals, fields)
  }

  /** The envelope tail: it carries the source pulling action, recoverable from the
      text when it holds no '<'. */
  function Tail(args: ScanArgs): (t: string)
    ensures MarkupFree(args.sourceCodeSettings.sourcePullingAction)
            ==> Extract(TailLiterals, t) == Some([args.sourceCodeSettings.sourcePullingAction])
  {
    var fields := [args.sourceCodeSettings.sourcePullingAction];
    assert MarkupFree(fields[0]) ==> Extract(TailLiterals, Interleave(TailLiterals, fields)) == Some(fields) by {
      if MarkupFree(fields[0]) {
        LiteralsDelimited();
        ExtractInterleave(TailLiterals, fields);
      }
    }
    Interleave(TailLiterals, fields)
  }

  /** The fields the head and tail carry are free of markup when the text fields
      the caller supplies are: rendered numbers never contain '<'. */
  predicate PlainFields(session: Option<string>, args: ScanArgs) {
    && MarkupFree(SessionText(session))
    && MarkupFree(args.projectSettings.projectName)
    && MarkupFree(args.projectSettings.associatedGroupId)
    && MarkupFree(args.sourceCodeSettings.sourceOrigin)
    && MarkupFree(args.sourceCodeSettings.sourcePullingAction)
  }

  lemma NumberIsMarkupFree(n: int)
    ensures MarkupFree(ToString(n))
  {
  }

  lemma HeadFieldsMarkupFree(session: Option<string>, args: ScanArgs)
    requires PlainFields(session, args)
    ensures forall i :: 0 <= i < |HeadFields(session, args)| ==> MarkupFree(HeadFields(session, args)[i])
  {
    NumberIsMarkupFree(args.projectSettings.projectId);
    NumberIsMarkupFree(args.projectSettings.presetId);
    NumberIsMarkupFree(args.projectSettings.scanConfigurationId);
  }

  lemma LiteralsDelimited()
    ensures Delimited(HeadLiterals)
    ensures Delimited(TailLiterals)
    ensures Delimited(HeadLiterals + TailLiterals)
  {
  }

  /** Reading back a joined interleaving of markup-free fields. */
  lemma ExtractJoin(p: seq<string>, f: seq<string>, x: string, q: seq<string>, g: seq<string>)
    requires |p| == |f| + 1 && |q| == |g| + 1
    requires Delimited(p + q)
    requires forall i :: 0 <= i < |f| ==> MarkupFree(f[i])
    requires forall i :: 0 <= i < |g| ==> MarkupFree(g[i])
    requires MarkupFree(x)
    ensures Extract(p + q, Interleave(p, f) + x + Interleave(q, g)) == Some(f + [x] + g)
  {
    InterleaveJoin(p, f, x, q, g);
    var fields := f + [x] + g;
    assert forall i :: 0 <= i < |fields| ==> MarkupFree(fields[i]) by {
      forall i | 0 <= i < |fields|
        ensures MarkupFree(fields[i])
      {
        if i < |f| {
          assert fields[i] == f[i];
        } else if i > |f| {
          assert fields[i] == g[i - |f| - 1];
        }
      }
    }
    ExtractInterleave(p + q, fields);
  }

  /** Head, payload text and tail together read back as every field plus the payload. */
  lemma MessageCarriesEverything(session: Option<string>, args: ScanArgs, payload: string)
    requires PlainFields(session, args)
    requires MarkupFree(payload)
    ensures Extract(HeadLiterals + TailLiterals, Head(session, args) + payload + Tail(args))
         == Some(HeadFields(session, args) + [payload] + [args.sourceCodeSettings.sourcePullingAction])
  {
    LiteralsDelimited();
    HeadFieldsMarkupFree(session, args);
    ExtractJoin(HeadLiterals, HeadFields(session, args), payload,
                TailLiterals, [args.sourceCodeSettings.sourcePullingAction]);
  }
}
