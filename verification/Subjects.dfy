/** NATS subjects: how the mirror prints them, how the binding reads them back, and which ones reach which handler. */
module Subjects {
  import opened GoStrings

  function SanitizeSubject(value: string): string {
    ReplaceChar(ReplaceChar(value, ' ', '_'), '/', '.')
  }

  function SanitizeSegment(value: string): string {
    var trimmed := TrimSpace(value);
    if trimmed == "" then "unknown" else SanitizeSubject(trimmed)
  }

  /** Sanitizing maps each character by itself, never to a space or slash and never from or to white space but ' '. */
  lemma SanitizedChars(value: string)
    ensures var s := SanitizeSubject(value);
      && |s| == |value|
      && forall i | 0 <= i < |s| :: s[i] == if value[i] == ' ' then '_' else if value[i] == '/' then '.' else value[i]
  {
  }

  lemma SubjectIdempotent(value: string)
    ensures SanitizeSubject(SanitizeSubject(value)) == SanitizeSubject(value)
  {
    hide SanitizeSubject;
    SanitizedChars(value);
    SanitizedChars(SanitizeSubject(value));
  }

  lemma SegmentIdempotent(value: string)
    ensures SanitizeSegment(SanitizeSegment(value)) == SanitizeSegment(value)
  {
    hide SanitizeSubject, TrimSpace;
    var trimmed := TrimSpace(value);
    if trimmed == "" {
      SanitizedChars("unknown");
    } else {
      SanitizedChars(trimmed);
      assert Trimmed(SanitizeSubject(trimmed));
      SubjectIdempotent(trimmed);
    }
  }

  /** A value is its own sanitized form exactly when it has no space and no slash. */
  lemma SanitizeFixedIff(value: string)
    ensures SanitizeSubject(value) == value <==> ' ' !in value && '/' !in value
  {
    var s := SanitizeSubject(value);
    if s == value {
      forall i | 0 <= i < |value| ensures value[i] != ' ' && value[i] != '/' {
        assert s[i] == value[i];
      }
    }
    assert ' ' !in value && '/' !in value ==> forall i | 0 <= i < |value| :: s[i] == value[i];
  }

  const PREFIX := "mig.v0_1."
  const EVENTS := "events"

  /** The subject an event is mirrored to. */
  function MirrorSubject(tenant: string, topic: string): string {
    PREFIX + SanitizeSegment(tenant) + "." + EVENTS + "." + SanitizeSubject(topic)
  }

  /** `subjectTokens`. */
  function Tokens(subject: string): seq<string> {
    if subject == "" then [] else Split(subject, '.')
  }

  /** `subjectToken`. */
  function Token(subject: string, index: int): string {
    var tokens := Tokens(subject);
    if index < 0 || index >= |tokens| then "" else tokens[index]
  }

  /** What handlePublish makes of a subject: tenant from token 2, topic from token 4 on. Slicing a shorter list would
      panic. */
  function DecodeTopic(subject: string): string
    requires |Tokens(subject)| >= 4
  {
    Join(Tokens(subject)[4..], '.')
  }

  lemma SubjectShape(segment: string, verb: string, rest: string)
    ensures PREFIX + segment + "." + verb + "." + rest
         == "mig" + ['.'] + ("v0_1" + ['.'] + (segment + ['.'] + (verb + ['.'] + rest)))
  {
    assert PREFIX == "mig" + ['.'] + "v0_1" + ['.'];
  }

  lemma SplitFour(a: string, b: string, segment: string, verb: string, rest: string)
    requires '.' !in a && '.' !in b && '.' !in verb
    ensures Split(a + ['.'] + (b + ['.'] + (segment + ['.'] + (verb + ['.'] + rest))), '.')
         == [a] + ([b] + (Split(segment, '.') + ([verb] + Split(rest, '.'))))
  {
    hide Split;
    var tail := verb + ['.'] + rest;
    var most := segment + ['.'] + tail;
    SplitHead(a, b + ['.'] + most, '.');
    SplitHead(b, most, '.');
    SplitAppend(segment, tail, '.');
    SplitHead(verb, rest, '.');
  }

  lemma Flatten<T>(a: T, b: T, p: seq<T>, c: T, q: seq<T>)
    ensures [a] + ([b] + (p + ([c] + q))) == [a, b] + p + [c] + q
  {
  }

  lemma SubjectTokens(segment: string, verb: string, rest: string)
    requires '.' !in verb
    ensures Tokens(PREFIX + segment + "." + verb + "." + rest)
         == ["mig", "v0_1"] + Split(segment, '.') + [verb] + Split(rest, '.')
  {
    hide Split;
    SubjectShape(segment, verb, rest);
    SplitFour("mig", "v0_1", segment, verb, rest);
    Flatten("mig", "v0_1", Split(segment, '.'), verb, Split(rest, '.'));
  }

  lemma MirrorTokens(tenant: string, topic: string)
    ensures Tokens(MirrorSubject(tenant, topic))
         == ["mig", "v0_1"] + Split(SanitizeSegment(tenant), '.') + [EVENTS] + Split(SanitizeSubject(topic), '.')
  {
    hide Split, SanitizeSegment, SanitizeSubject;
    SubjectTokens(SanitizeSegment(tenant), EVENTS, SanitizeSubject(topic));
  }

  /** A tenant is printed as one token if and only if it has no dot and no slash. */
  lemma OneTokenIff(tenant: string)
    ensures '.' !in SanitizeSegment(tenant) <==> '.' !in tenant && '/' !in tenant
  {
    hide SanitizeSubject, TrimSpace;
    var left, right := TrimCutsBlanks(tenant);
    var mid := TrimSpace(tenant);
    assert forall c | c in left || c in right :: IsSpace(c);
    assert forall c :: c in tenant <==> c in left || c in mid || c in right;
    SanitizedChars(mid);
    var s := SanitizeSubject(mid);
    if '.' in s {
      var i :| 0 <= i < |s| && s[i] == '.';
      assert mid[i] in mid;
    }
    if i :| 0 <= i < |mid| && (mid[i] == '.' || mid[i] == '/') {
      assert s[i] == '.';
    }
  }

  /** A mirrored subject reads back as the sanitized tenant and topic if and only if the tenant has no dot and no
      slash. */
  lemma MirrorDecodesIff(tenant: string, topic: string)
    ensures var subject := MirrorSubject(tenant, topic);
      && |Tokens(subject)| >= 5
      && ((Token(subject, 2) == SanitizeSegment(tenant) && DecodeTopic(subject) == SanitizeSubject(topic))
          <==> '.' !in tenant && '/' !in tenant)
  {
    hide SanitizeSegment, SanitizeSubject, MirrorSubject;
    var subject, seg, top := MirrorSubject(tenant, topic), SanitizeSegment(tenant), SanitizeSubject(topic);
    OneTokenIff(tenant);
    MirrorTokens(tenant, topic);
    var tokens, parts := Tokens(subject), Split(seg, '.');
    assert tokens[2] == parts[0];
    assert '.' !in parts[0];
    if '.' !in seg {
      SplitWhole(seg, '.');
      assert tokens[4..] == Split(top, '.');
      JoinSplit(top, '.');
    }
  }

  /** The mirror loses nothing exactly for nonempty tenants without white space at the ends and without dot, slash or
      space, and topics without slash or space. */
  lemma MirrorRoundTripIff(tenant: string, topic: string)
    ensures |Tokens(MirrorSubject(tenant, topic))| >= 5
    ensures (Token(MirrorSubject(tenant, topic), 2) == tenant && DecodeTopic(MirrorSubject(tenant, topic)) == topic)
      <==> (&& tenant != "" && Trimmed(tenant) && '.' !in tenant && '/' !in tenant && ' ' !in tenant
            && ' ' !in topic && '/' !in topic)
  {
    hide MirrorSubject, SanitizeSubject, SanitizeSegment;
    MirrorDecodesIff(tenant, topic);
    SanitizeFixedIff(topic);
    SegmentFixedIff(tenant);
    var subject, seg := MirrorSubject(tenant, topic), SanitizeSegment(tenant);
    if Token(subject, 2) == tenant && DecodeTopic(subject) == topic {
      MirrorTokens(tenant, topic);
      var parts := Split(seg, '.');
      assert parts[0] == tenant && '.' !in tenant;
      TokenTenantIsWhole(tenant);
    }
  }

  lemma SegmentFixedIff(tenant: string)
    ensures SanitizeSegment(tenant) == tenant <==>
      tenant != "" && Trimmed(tenant) && '/' !in tenant && ' ' !in tenant
  {
    hide SanitizeSubject;
    var mid := TrimSpace(tenant);
    SanitizedChars(mid);
    SanitizeFixedIff(mid);
    if SanitizeSegment(tenant) == tenant && mid != "" {
      TrimShortens(tenant);
      var left, right := TrimCutsBlanks(tenant);
      assert |left| + |mid| + |right| == |tenant| == |mid|;
      assert left + mid + right == mid;
    }
  }

  /** A dot-free tenant that survives as the first token of its own sanitized form is that form. */
  lemma TokenTenantIsWhole(tenant: string)
    requires Split(SanitizeSegment(tenant), '.')[0] == tenant
    ensures SanitizeSegment(tenant) == tenant
  {
    var seg := SanitizeSegment(tenant);
    FirstPart(seg, '.');
    if TrimSpace(tenant) == "" {
      assert seg == "unknown";
      SplitWhole(seg, '.');
    } else {
      TrimShortens(tenant);
      assert |seg| <= |tenant|;
    }
  }

  lemma {:induction false} FirstPart(s: string, sep: char)
    ensures Split(s, sep)[0] <= s
  {
    if s != "" {
      FirstPart(s[1..], sep);
      assert s == [s[0]] + s[1..];
    }
  }

  lemma {:induction false} TrimShortens(s: string)
    ensures |TrimSpace(s)| <= |s|
  {
    TrimLeftShortens(s);
  }

  lemma {:induction false} TrimLeftShortens(s: string)
    ensures |TrimLeft(s)| <= |s|
  {
    if s != "" && IsSpace(s[0]) { TrimLeftShortens(s[1..]); }
  }

  // ----- subscriptions -----

  /** NATS matching: `*` stands for one token, a final `>` for one or more. A subject with an empty token is not
      delivered to anybody. */
  predicate Matches(pattern: seq<string>, tokens: seq<string>) {
    "" !in tokens && Fits(pattern, tokens)
  }

  predicate Fits(pattern: seq<string>, tokens: seq<string>) {
    if pattern == [] then tokens == []
    else if pattern == [">"] then tokens != []
    else tokens != [] && (pattern[0] == "*" || pattern[0] == tokens[0]) && Fits(pattern[1..], tokens[1..])
  }

  const INVOKE_PATTERN := ["mig", "v0_1", "*", "invoke", ">"]
  const EVENTS_PATTERN := ["mig", "v0_1", "*", EVENTS, ">"]
  const CANCEL_PATTERN := ["mig", "v0_1", "*", "control", "cancel", ">"]

  /** A pattern that ends in `>` matches only subjects with at least as many tokens as it has. */
  lemma {:induction false} MatchIsLongEnough(pattern: seq<string>, tokens: seq<string>)
    requires pattern != [] && pattern[|pattern| - 1] == ">" && Fits(pattern, tokens)
    ensures |tokens| >= |pattern|
  {
    if |pattern| == 1 {
      assert pattern == [">"];
    } else {
      MatchIsLongEnough(pattern[1..], tokens[1..]);
    }
  }

  /** Every subject that reaches a handler has more tokens than its slice skips: 4 for invoke and publish, 5 for
      cancel. */
  lemma HandlersSliceInRange(subject: string)
    ensures Matches(INVOKE_PATTERN, Tokens(subject)) || Matches(EVENTS_PATTERN, Tokens(subject)) ==>
      |Tokens(subject)| >= 5
    ensures Matches(CANCEL_PATTERN, Tokens(subject)) ==> |Tokens(subject)| >= 6
  {
    if Matches(INVOKE_PATTERN, Tokens(subject)) { MatchIsLongEnough(INVOKE_PATTERN, Tokens(subject)); }
    if Matches(EVENTS_PATTERN, Tokens(subject)) { MatchIsLongEnough(EVENTS_PATTERN, Tokens(subject)); }
    if Matches(CANCEL_PATTERN, Tokens(subject)) { MatchIsLongEnough(CANCEL_PATTERN, Tokens(subject)); }
  }

  lemma FitsVerb(verb: string, tokens: seq<string>)
    requires verb != "*" && verb != ">"
    ensures Fits(["mig", "v0_1", "*", verb, ">"], tokens) <==>
      |tokens| >= 5 && tokens[0] == "mig" && tokens[1] == "v0_1" && tokens[3] == verb
  {
    var p := ["mig", "v0_1", "*", verb, ">"];
    assert p[1..] == ["v0_1", "*", verb, ">"];
    assert p[1..][1..] == ["*", verb, ">"];
    assert p[1..][1..][1..] == [verb, ">"];
    assert p[1..][1..][1..][1..] == [">"];
    if |tokens| >= 4 {
      var t1 := tokens[1..];
      var t2 := t1[1..];
      var t3 := t2[1..];
      var t4 := t3[1..];
      assert Fits(p, tokens) <==> tokens[0] == "mig" && Fits(p[1..], t1);
      assert Fits(p[1..], t1) <==> t1[0] == "v0_1" && Fits(p[1..][1..], t2);
      assert Fits(p[1..][1..], t2) <==> Fits(p[1..][1..][1..], t3);
      assert Fits(p[1..][1..][1..], t3) <==> t3[0] == verb && Fits([">"], t4);
    } else if Fits(p, tokens) {
      MatchIsLongEnough(p, tokens);
    }
  }

  // ----- empty tokens -----

  predicate IsBreak(c: char) { c == '.' || c == '/' }

  /** Not empty, no dot or slash at either end, and no two of them in a row. */
  predicate Gapless(s: string) {
    s != "" && !IsBreak(s[0]) && !EndsOrDoubles(s)
  }

  predicate EndsOrDoubles(s: string)
    requires s != ""
  {
    IsBreak(s[|s| - 1]) || exists i | 0 <= i < |s| - 1 :: IsBreak(s[i]) && IsBreak(s[i + 1])
  }

  lemma FirstToken(s: string)
    ensures Split(s, '.')[0] == "" <==> s == "" || s[0] == '.'
  {
  }

  /** Where the empty tokens after the first one come from, in a string without slashes. */
  lemma {:induction false} LaterEmptyToken(s: string)
    requires '/' !in s
    ensures "" in Split(s, '.')[1..] <==> s != "" && EndsOrDoubles(s)
  {
    if s != "" {
      var rest := s[1..];
      var parts := Split(rest, '.');
      LaterEmptyToken(rest);
      FirstToken(rest);
      Shifted(s);
      if s[0] == '.' {
        assert Split(s, '.')[1..] == parts;
        assert parts == [parts[0]] + parts[1..];
      } else {
        assert Split(s, '.')[1..] == parts[1..];
      }
    }
  }

  /** Ends and doubled breaks, one character further on. */
  lemma Shifted(s: string)
    requires s != ""
    ensures EndsOrDoubles(s) <==>
      if s[1..] == "" then IsBreak(s[0]) else (IsBreak(s[0]) && IsBreak(s[1])) || EndsOrDoubles(s[1..])
  {
    var rest := s[1..];
    if rest != "" {
      if i :| 0 <= i < |s| - 1 && IsBreak(s[i]) && IsBreak(s[i + 1]) {
        assert i > 0 ==> IsBreak(rest[i - 1]) && IsBreak(rest[i]);
      }
      if i :| 0 <= i < |rest| - 1 && IsBreak(rest[i]) && IsBreak(rest[i + 1]) {
        assert IsBreak(s[i + 1]) && IsBreak(s[i + 2]);
      }
    }
  }

  /** A sanitized value has no empty token if and only if the value is gapless. */
  lemma NoEmptyTokenIff(value: string)
    ensures "" !in Split(SanitizeSubject(value), '.') <==> Gapless(value)
  {
    hide SanitizeSubject;
    var s := SanitizeSubject(value);
    SanitizedChars(value);
    assert forall i | 0 <= i < |s| :: IsBreak(s[i]) <==> IsBreak(value[i]);
    assert forall i | 0 <= i < |s| :: s[i] == '.' <==> IsBreak(value[i]);
    FirstToken(s);
    LaterEmptyToken(s);
    var parts := Split(s, '.');
    assert parts == [parts[0]] + parts[1..];
  }

  /** A tenant is printed without an empty token: it is blank, and printed as "unknown", or gapless once trimmed. */
  predicate PrintsWhole(tenant: string) {
    TrimSpace(tenant) == "" || Gapless(TrimSpace(tenant))
  }

  /** A blank tenant is mirrored under the name "unknown". */
  lemma BlankIsUnknown(tenant: string, topic: string)
    requires Blank(tenant)
    ensures Token(MirrorSubject(tenant, topic), 2) == "unknown"
  {
    hide SanitizeSubject, TrimSpace, MirrorSubject;
    TrimBlank(tenant);
    MirrorTokens(tenant, topic);
    SplitWhole("unknown", '.');
  }

  lemma SegmentTokens(tenant: string)
    ensures "" !in Split(SanitizeSegment(tenant), '.') <==> PrintsWhole(tenant)
  {
    hide SanitizeSubject, Gapless, TrimSpace;
    NoEmptyTokenIff(TrimSpace(tenant));
    SplitWhole("unknown", '.');
  }

  /** A mirrored subject comes back to the publish handler if and only if neither tenant nor topic is printed with an
      empty token, and the tenant has no dot and no slash or the second token of its sanitized form happens to be
      "events". */
  lemma MirrorMatchesIff(tenant: string, topic: string)
    ensures var parts := Split(SanitizeSegment(tenant), '.');
      Matches(EVENTS_PATTERN, Tokens(MirrorSubject(tenant, topic))) <==>
      && PrintsWhole(tenant) && Gapless(topic)
      && (('.' !in tenant && '/' !in tenant) || (|parts| > 1 && parts[1] == EVENTS))
  {
    hide SanitizeSegment, SanitizeSubject, MirrorSubject, Fits, Gapless, PrintsWhole;
    MirrorTokens(tenant, topic);
    FitsVerb(EVENTS, Tokens(MirrorSubject(tenant, topic)));
    OneTokenIff(tenant);
    SegmentTokens(tenant);
    NoEmptyTokenIff(topic);
    var seg := SanitizeSegment(tenant);
    var parts, top := Split(seg, '.'), Split(SanitizeSubject(topic), '.');
    JoinSplit(seg, '.');
    if '.' !in seg { SplitWhole(seg, '.'); }
    var tokens := ["mig", "v0_1"] + parts + [EVENTS] + top;
    assert |tokens| >= 5;
    assert tokens[3] == if |parts| == 1 then EVENTS else parts[1];
  }
}
