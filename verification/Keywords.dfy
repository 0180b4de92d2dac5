/**
 Two readings of the same inbound text. The live orchestrator looks for a keyword as a whole word,
 the replay engine for a keyword anywhere. Both get the text and the keywords already normalized;
 `isWord` tells word characters apart.
 */
module Keywords {
  import opened Common

  datatype Intent = Unsupported | OptOut(keyword: string) | HandoffRequest(keyword: string) | CampaignReply
      | Conversation

  datatype LoggedEvent = LoggedEvent(id: string, eventType: string, text: string)

  const OPT_OUT_DETECTED := "opt_out_detected"
  const HANDOFF_REQUESTED := "handoff_requested"
  const AGENT_COMMAND := "agent_command"
  const USER_MESSAGE := "user_message"
  const CAMPAIGN_REPLY_RECEIVED := "campaign_reply_received"

  predicate OccursAt(text: string, keyword: string, i: nat) {
    i + |keyword| <= |text| && text[i..i + |keyword|] == keyword
  }

  predicate Contains(text: string, keyword: string) {
    exists i :: 0 <= i <= |text| && OccursAt(text, keyword, i)
  }

  /** No word character touches the occurrence on either side. */
  predicate OnWordBoundary(isWord: char -> bool, text: string, keyword: string, i: nat) {
    && OccursAt(text, keyword, i)
    && (i > 0 ==> !isWord(text[i - 1]))
    && (i + |keyword| < |text| ==> !isWord(text[i + |keyword|]))
  }

  predicate ContainsWord(isWord: char -> bool, text: string, keyword: string) {
    exists i :: 0 <= i <= |text| && OnWordBoundary(isWord, text, keyword, i)
  }

  predicate Matches(isWord: char -> bool, text: string, keyword: string) {
    keyword != "" && ContainsWord(isWord, text, keyword)
  }

  /** The keyword at `i` is found as a whole word and none before it is. */
  ghost predicate FirstMatchAt(isWord: char -> bool, text: string, keywords: seq<string>, i: nat) {
    && i < |keywords| && Matches(isWord, text, keywords[i])
    && forall j :: 0 <= j < i ==> !Matches(isWord, text, keywords[j])
  }

  function MatchKeyword(isWord: char -> bool, text: string, keywords: seq<string>): (r: Option<string>)
    ensures r.Some? ==> text != "" && r.value in keywords && Matches(isWord, text, r.value)
    ensures r.Some? ==> exists i: nat :: FirstMatchAt(isWord, text, keywords, i) && keywords[i] == r.value
    ensures r.None? && text != "" ==> forall i :: 0 <= i < |keywords| ==> !Matches(isWord, text, keywords[i])
  {
    if text == "" || keywords == [] then None
    else if Matches(isWord, text, keywords[0]) then
      assert FirstMatchAt(isWord, text, keywords, 0);
      Some(keywords[0])
    else
      assert keywords == [keywords[0]] + keywords[1..];
      assert forall i: nat :: FirstMatchAt(isWord, text, keywords[1..], i) ==>
                                FirstMatchAt(isWord, text, keywords, i + 1) && keywords[i + 1] == keywords[1..][i];
      MatchKeyword(isWord, text, keywords[1..])
  }

  function Classify(isWord: char -> bool, supported: bool, text: string, optOut: seq<string>, handoff: seq<string>,
                    campaign: bool): Intent {
    if !supported then Unsupported
    else
      match MatchKeyword(isWord, text, optOut)
      case Some(k) => OptOut(k)
      case None =>
        match MatchKeyword(isWord, text, handoff)
        case Some(k) => HandoffRequest(k)
        case None => if campaign then CampaignReply else Conversation
  }

  function LiveEvent(intent: Intent): string {
    match intent
    case OptOut(_) => OPT_OUT_DETECTED
    case HandoffRequest(_) => HANDOFF_REQUESTED
    case CampaignReply => CAMPAIGN_REPLY_RECEIVED
    case _ => USER_MESSAGE
  }

  function AnyContained(text: string, keywords: seq<string>): (r: bool)
    ensures r <==> exists k :: k in keywords && k != "" && Contains(text, k)
  {
    if keywords == [] then false
    else
      assert keywords == [keywords[0]] + keywords[1..];
      (keywords[0] != "" && Contains(text, keywords[0])) || AnyContained(text, keywords[1..])
  }

  function InferFsmEvent(e: LoggedEvent, optOut: seq<string>, handoff: seq<string>): Option<string> {
    if e.eventType == "handoff_requested" then Some(HANDOFF_REQUESTED)
    else if e.eventType in {"system_agent_took_control", "system_agent_released_control"} then Some(AGENT_COMMAND)
    else if e.eventType != "inbound_message" then None
    else if e.text != "" && AnyContained(e.text, optOut) then Some(OPT_OUT_DETECTED)
    else if e.text != "" && AnyContained(e.text, handoff) then Some(HANDOFF_REQUESTED)
    else Some(USER_MESSAGE)
  }

  lemma WordIsContained(isWord: char -> bool, text: string, keyword: string)
    requires ContainsWord(isWord, text, keyword)
    ensures Contains(text, keyword)
  {
    var i :| 0 <= i <= |text| && OnWordBoundary(isWord, text, keyword, i);
    assert OccursAt(text, keyword, i);
  }

  /** Replay never reads less into a message than the live path did. */
  lemma ReplayOverApproximates(isWord: char -> bool, supported: bool, e: LoggedEvent, optOut: seq<string>,
                               handoff: seq<string>, campaign: bool)
    requires e.eventType == "inbound_message"
    ensures var live := Classify(isWord, supported, e.text, optOut, handoff, campaign);
            var replayed := InferFsmEvent(e, optOut, handoff);
            && (live.OptOut? ==> replayed == Some(OPT_OUT_DETECTED))
            && (live.HandoffRequest? ==> replayed in {Some(HANDOFF_REQUESTED), Some(OPT_OUT_DETECTED)})
            && (replayed == Some(USER_MESSAGE) ==> !live.OptOut? && !live.HandoffRequest?)
  {
    var live := Classify(isWord, supported, e.text, optOut, handoff, campaign);
    if live.OptOut? || live.HandoffRequest? {
      WordIsContained(isWord, e.text, live.keyword);
    }
  }

  /** When the two paths read one inbound message differently. For an unsupported kind of message: some
      keyword occurs at all. Otherwise: no opt-out keyword is a whole word, and either one occurs inside
      words, or no handoff keyword is a whole word and one occurs inside words or the message answers a
      campaign, which replay knows nothing of. */
  predicate PathsPart(isWord: char -> bool, supported: bool, text: string, optOut: seq<string>, handoff: seq<string>,
                      campaign: bool)
  {
    var anyOptOut := text != "" && AnyContained(text, optOut);
    var anyHandoff := text != "" && AnyContained(text, handoff);
    if !supported then anyOptOut || anyHandoff
    else
      && MatchKeyword(isWord, text, optOut).None?
      && (anyOptOut || (MatchKeyword(isWord, text, handoff).None? && (campaign || anyHandoff)))
  }

  lemma WhenReplayDiffers(isWord: char -> bool, supported: bool, e: LoggedEvent, optOut: seq<string>,
                          handoff: seq<string>, campaign: bool)
    requires e.eventType == "inbound_message"
    ensures var live := LiveEvent(Classify(isWord, supported, e.text, optOut, handoff, campaign));
            InferFsmEvent(e, optOut, handoff) != Some(live) <==>
            PathsPart(isWord, supported, e.text, optOut, handoff, campaign)
  {
    var o, h := MatchKeyword(isWord, e.text, optOut), MatchKeyword(isWord, e.text, handoff);
    if o.Some? { WordIsContained(isWord, e.text, o.value); }
    if h.Some? { WordIsContained(isWord, e.text, h.value); }
  }

  /** "baja" opts out; "trabajar" contains it, so replay reads an opt-out that never happened. */
  lemma ReplayCanSayMore(isWord: char -> bool)
    requires isWord('a') && isWord('r')
    ensures var e := LoggedEvent("1", "inbound_message", "trabajar");
            InferFsmEvent(e, ["baja"], []) == Some(OPT_OUT_DETECTED)
            && Classify(isWord, true, e.text, ["baja"], [], false) == Conversation
  {
    var text := "trabajar";
    assert OccursAt(text, "baja", 3);
    assert ["baja"][0] in ["baja"] && AnyContained(text, ["baja"]);
    forall i | 0 <= i <= |text|
      ensures !OnWordBoundary(isWord, text, "baja", i)
    {
      if OccursAt(text, "baja", i) {
        assert text[i..i + 4][0] == 'b' && text[i] == 'b';
        assert i == 3 && text[2] == 'a';
      }
    }
    assert !ContainsWord(isWord, text, "baja");
    assert MatchKeyword(isWord, text, ["baja"]).None? && MatchKeyword(isWord, text, []).None?;
  }
}
