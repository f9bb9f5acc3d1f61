/**
 * The two request boundaries in front of the composer: the webhook URL guard of
 * `PostToUrl` and the command dispatch of `SlackDirectResponse`.
 */
module Endpoints {
  import opened Options
  import opened Text
  import opened Blocks
  import opened MenuMessage

  const SlackHookPrefix: string := "https://hooks.slack.com/services/"
  const BadUrlReason: string := "Requires URL. And must start with https://hooks.slack.com/services/."
  const Ephemeral: string := "ephemeral"

  const HelpText: string :=
    "*Kommandoer:\n" +
    "*announce* - Gir output til hele kanalen\n" +
    "*all* - Viser menyen for hele uka\n" +
    "*help* - Denne hjelpen.\n" +
    "\n" +
    "https://github.com/Hoaas/Vitaminveien4Menu4Slack"

  lemma PrefixIsNotBlank()
    ensures !IsBlank(SlackHookPrefix)
  {
    assert !IsWhiteSpace(SlackHookPrefix[0]);
  }

  /** The guard of `PostToUrl`: a null or blank URL, or one outside the Slack hook prefix. */
  predicate RejectsUrl(url: Option<string>)
    ensures RejectsUrl(url) <==> !(url.Some? && StartsWith(url.value, SlackHookPrefix))
  {
    PrefixedUrlIsNotBlank(url);
    url.None? || IsBlank(url.value) || !StartsWith(url.value, SlackHookPrefix)
  }

  /** A URL under the Slack hook prefix is never blank, so the blank test of the
      guard is implied by the prefix test. */
  lemma PrefixedUrlIsNotBlank(url: Option<string>)
    ensures url.Some? && StartsWith(url.value, SlackHookPrefix) ==> !IsBlank(url.value)
  {
    if url.Some? && StartsWith(url.value, SlackHookPrefix) {
      PrefixIsNotBlank();
      StartsWithNonBlank(url.value, SlackHookPrefix);
    }
  }

  /** What `PostToUrl` does: refuse the request, or post this message to this URL. */
  datatype PostOutcome = BadRequest(reason: string) | Post(url: string, message: SlackMessage)

  /**
   * `PostToUrl`: the URL is checked before anything is composed; an accepted URL
   * receives the default message, marked ephemeral. The HTTP call itself is not modelled.
   */
  function PostToUrl(url: Option<string>, service: MenuService, today: string, search: ImageSearch)
    : (r: PostOutcome)
    ensures r.BadRequest? <==> RejectsUrl(url)
    ensures r.BadRequest? <==> !(url.Some? && StartsWith(url.value, SlackHookPrefix))
    ensures r.BadRequest? ==> r.reason == BadUrlReason
    ensures r.Post? ==>
              && r.url == url.value
              && r.message.blocks == CreateSlackMessage(false, service, today, search)
              && r.message.responseType == Some(Ephemeral)
  {
    if RejectsUrl(url) then
      BadRequest(BadUrlReason)
    else
      Post(url.value, SlackMessage(CreateSlackMessage(false, service, today, search), Some(Ephemeral)))
  }

  /** A rejected URL gets the same answer whatever the menu service, the day or
      the image search would have given: nothing was composed. */
  lemma RejectionIgnoresComposition(url: Option<string>,
                                    service1: MenuService, today1: string, search1: ImageSearch,
                                    service2: MenuService, today2: string, search2: ImageSearch)
    requires RejectsUrl(url)
    ensures PostToUrl(url, service1, today1, search1) == PostToUrl(url, service2, today2, search2)
    ensures PostToUrl(url, service1, today1, search1) == BadRequest(BadUrlReason)
  {
  }

  /** The form post from Slack; only its `text` is read here. */
  datatype SlackPost = SlackPost(text: Option<string>)

  /** `SlackPost.IsCommand`, whose definition is not part of this model. */
  type CommandTest = (SlackPost, string) -> bool

  /**
   * `SlackDirectResponse`: help/hjelp gives the help text, all/alt the whole
   * week, anything else the default message; the reply is ephemeral unless the
   * command is announce.
   */
  method SlackDirectResponse(post: SlackPost, isCommand: CommandTest,
                             service: MenuService, today: string, search: ImageSearch)
    returns (message: SlackMessage)
    ensures var help := post.text.Some? && (isCommand(post, "help") || isCommand(post, "hjelp"));
            var all := post.text.Some? && !help && (isCommand(post, "all") || isCommand(post, "alt"));
            message.blocks ==
              if help then CreateDefaultSectionText(HelpText)
              else CreateSlackMessage(all, service, today, search)
    ensures message.responseType == if isCommand(post, "announce") then None else Some(Ephemeral)
  {
    var reply: Option<SlackMessage> := None;
    if post.text.Some? {
      if isCommand(post, "help") || isCommand(post, "hjelp") {
        reply := Some(SlackMessage(CreateDefaultSectionText(HelpText), None));
      } else if isCommand(post, "all") || isCommand(post, "alt") {
        reply := Some(SlackMessage(CreateSlackMessage(true, service, today, search), None));
      }
    }
    if reply.None? {
      reply := Some(SlackMessage(CreateSlackMessage(false, service, today, search), None));
    }
    message := reply.value;
    if !isCommand(post, "announce") {
      message := message.(responseType := Some(Ephemeral));
    }
  }
}
