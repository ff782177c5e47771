/**
 * `retrieve_steps` and the handlers that call it. One GET of a category or
 * step yields one of three replies: nothing (a non-200 status), a list of
 * deep links to the child steps, or a terminal solution followed by the
 * satisfaction quiz.
 */
module Troubleshooter {
  import opened Wrappers
  import opened Decimal
  import opened Chat
  import opened Http
  import opened Texts

  /** A child step, or an injected extra link: `{title, id}`. */
  datatype Step = Step(title: string, id: int)

  /**
   * The decoded body of a category or step: its child steps, its optional
   * `parent_id`, and its own `title` and `id` (read only when terminal).
   */
  datatype StepsBody = StepsBody(steps: seq<Step>, parentId: Option<int>, title: string, id: int)

  const Header: string := "Капитан, уточни, пожалуйста, в чем проблема: \n\n"

  /** The command a deep link re-enters the bot with, before the id. */
  const StepsCommand: string := "/troubleshooter_steps_"

  function DeepLink(id: int): string {
    StepsCommand + IntToString(id)
  }

  /** `"- {title} \n⇨ /troubleshooter_steps_{id}\n\n"`. */
  function StepLine(s: Step): string {
    "- " + s.title + " \n⇨ " + DeepLink(s.id) + "\n\n"
  }

  /** The step lines of `steps`, one per step, in input order. */
  function Lines(steps: seq<Step>): string {
    Join(steps, StepLine)
  }

  /** Python truthiness of `body['parent_id']`: absent, null and 0 are all false. */
  predicate HasParent(parentId: Option<int>) {
    parentId.Some? && parentId.value != 0
  }

  function BackLine(parentId: int): string {
    "Вернуться назад " + DeepLink(parentId)
  }

  function SolutionText(title: string, id: int): string {
    "Решение: " + title + " " + SupportSite + "/troubleshooter/steps/" + IntToString(id)
  }

  function CategoryUrl(categoryId: string): string {
    SupportSite + "/api/troubleshooter/categories/" + categoryId
  }

  function StepUrl(stepId: string): string {
    SupportSite + "/api/troubleshooter/steps/" + stepId
  }

  /** The text of the step-list reply. */
  function StepListText(extraLinks: seq<Step>, body: StepsBody): string {
    Header + Lines(extraLinks) + Lines(body.steps)
      + (if HasParent(body.parentId) then BackLine(body.parentId.value) else "")
  }

  /** The messages `retrieve_steps` sends for a response, as a function of the response. */
  function StepsReply(extraLinks: seq<Step>, resp: Response<StepsBody>): seq<Message> {
    if !IsOk(resp) then []
    else if |resp.body.steps| > 0 then [Text(StepListText(extraLinks, resp.body))]
    else [Text(SolutionText(resp.body.title, resp.body.id))] + Quiz()
  }

  /**
   * `retrieve_steps`: accumulates the header and the extra links, fetches
   * `apiUrl`, appends the child steps and the back link, and sends.
   */
  method RetrieveSteps(apiUrl: string, extraLinks: seq<Step>, fetch: string -> Response<StepsBody>)
    returns (sent: seq<Message>)
    ensures sent == StepsReply(extraLinks, fetch(apiUrl))
  {
    var text := AppendFormatted(Header, extraLinks, StepLine);
    sent := [];
    var resp := fetch(apiUrl);
    if resp.status == 200 {
      var body := resp.body;
      var steps := body.steps;
      if |steps| > 0 {
        text := AppendFormatted(text, steps, StepLine);
        if body.parentId.Some? && body.parentId.value != 0 {
          text := text + BackLine(body.parentId.value);
        }
        assert text == StepListText(extraLinks, body);
        sent := sent + [Text(text)];
      } else {
        sent := sent + [Text(SolutionText(body.title, body.id))];
        sent := sent + Quiz();
      }
    }
  }

  /** `troubleshooter_steps`: the step named by the command's digits. */
  method TroubleshooterSteps(stepId: string, fetch: string -> Response<StepsBody>)
    returns (sent: seq<Message>)
    ensures sent == StepsReply([], fetch(StepUrl(stepId)))
  {
    sent := RetrieveSteps(StepUrl(stepId), [], fetch);
  }

  /** `troubleshooter_category`: the category named by the command's digits. */
  method TroubleshooterCategory(categoryId: string, fetch: string -> Response<StepsBody>)
    returns (sent: seq<Message>)
    ensures sent == StepsReply([], fetch(CategoryUrl(categoryId)))
  {
    sent := RetrieveSteps(CategoryUrl(categoryId), [], fetch);
  }

  /** The shortcut injected at the top of the root category. */
  const FinanceLink: Step := Step("Финансовые вопросы", 1468)

  lemma SmallIds()
    ensures IntToString(16) == "16" && IntToString(1468) == "1468"
  {
    assert NatToString(14) == "14";
    assert NatToString(146) == "146";
  }

  /** `troubleshooter`: root category 16, with the finance shortcut first. */
  method Troubleshooter(fetch: string -> Response<StepsBody>) returns (sent: seq<Message>)
    ensures sent == StepsReply([Step("Финансовые вопросы", 1468)],
                               fetch(SupportSite + "/api/troubleshooter/categories/16"))
  {
    SmallIds();
    assert CategoryUrl(IntToString(16)) == SupportSite + "/api/troubleshooter/categories/16";
    sent := RetrieveSteps(CategoryUrl(IntToString(16)), [FinanceLink], fetch);
  }

  /** `money`: opens step 1468 directly, with no extra links. */
  method Money(fetch: string -> Response<StepsBody>) returns (sent: seq<Message>)
    ensures sent == StepsReply([], fetch(SupportSite + "/api/troubleshooter/steps/1468"))
  {
    SmallIds();
    assert StepUrl(IntToString(1468)) == SupportSite + "/api/troubleshooter/steps/1468";
    sent := TroubleshooterSteps(IntToString(1468), fetch);
  }

  // ---------------------------------------------------------------------
  // What the replies promise.

  /** Non-200: nothing at all is sent. */
  lemma NothingOnError(extraLinks: seq<Step>, resp: Response<StepsBody>)
    requires !IsOk(resp)
    ensures StepsReply(extraLinks, resp) == []
  {
  }

  /**
   * Child steps present: one message, the header, then the extra links and
   * then the steps, each as its line in input order, then the back link to
   * `parent_id` exactly when that is truthy.
   */
  lemma {:induction false} StepListShape(extraLinks: seq<Step>, resp: Response<StepsBody>)
    requires IsOk(resp) && |resp.body.steps| > 0
    ensures var sent := StepsReply(extraLinks, resp);
      |sent| == 1 && sent[0].replyMarkup == None &&
      var text := sent[0].text;
      var list := Header + Lines(extraLinks + resp.body.steps);
      && (HasParent(resp.body.parentId) ==> text == list + BackLine(resp.body.parentId.value))
      && (!HasParent(resp.body.parentId) ==> text == list)
  {
    var body := resp.body;
    JoinAppend(extraLinks, body.steps, StepLine);
    var list := Header + Lines(extraLinks + body.steps);
    assert list == Header + Lines(extraLinks) + Lines(body.steps);
    var back := if HasParent(body.parentId) then BackLine(body.parentId.value) else "";
    assert StepListText(extraLinks, body) == list + back;
  }

  /** The text of a step list ends in a blank line exactly when no back link was appended. */
  lemma {:induction false} BackLinkIffParent(extraLinks: seq<Step>, body: StepsBody)
    requires |body.steps| > 0
    ensures var text := StepListText(extraLinks, body);
      text[|text| - 1] == '\n' <==> !HasParent(body.parentId)
  {
    var steps := body.steps;
    var last := StepLine(steps[|steps| - 1]);
    assert last[|last| - 1] == '\n';
    var prefix := Header + Lines(extraLinks) + Lines(steps);
    assert prefix[|prefix| - 1] == '\n';
    if HasParent(body.parentId) {
      var back := BackLine(body.parentId.value);
      var digits := IntToString(body.parentId.value);
      IntToStringShape(body.parentId.value);
      assert back[|back| - 1] == digits[|digits| - 1];
    }
  }

  /** Terminal step: the solution, then the quiz; the extra links are not sent. */
  lemma TerminalShape(extraLinks: seq<Step>, resp: Response<StepsBody>)
    requires IsOk(resp) && resp.body.steps == []
    ensures var sent := StepsReply(extraLinks, resp);
      && |sent| == 2
      && sent[0] == Text(SolutionText(resp.body.title, resp.body.id))
      && [sent[1]] == Quiz()
      && sent == StepsReply([], resp)
  {
  }

  /**
   * The id the `/troubleshooter_steps_(\d+)` command carries, when the
   * whole text is that command.
   */
  function CommandStepId(command: string): Option<nat> {
    if StepsCommand <= command then ParseNat(command[|StepsCommand|..]) else None
  }

  /**
   * A deep link for a non-negative id is read back as that id; one for a
   * negative id has a minus sign the `\d+` pattern does not accept.
   */
  lemma DeepLinkRoundTrip(id: int)
    ensures CommandStepId(DeepLink(id)) == if id >= 0 then Some(id) else None
  {
    var digits := IntToString(id);
    assert DeepLink(id)[|StepsCommand|..] == digits;
    if id >= 0 {
      ParseNatToString(id);
    } else {
      IntToStringShape(id);
      assert !IsDigit(digits[0]);
    }
  }

  /**
   * Tapping the finance shortcut opens the same step the `money` handler
   * opens, so both fetch the same URL.
   */
  lemma FinanceShortcutIsMoney()
    ensures CommandStepId(DeepLink(FinanceLink.id)) == Some(1468)
    ensures StepUrl(DeepLink(FinanceLink.id)[|StepsCommand|..]) == SupportSite + "/api/troubleshooter/steps/1468"
  {
    DeepLinkRoundTrip(1468);
    SmallIds();
    assert DeepLink(FinanceLink.id)[|StepsCommand|..] == IntToString(1468);
  }

  /**
   * The root category with no child steps is answered as a terminal step:
   * the solution and the quiz, without the finance shortcut.
   */
  lemma RootWithoutSteps(title: string, id: int)
    ensures StepsReply([FinanceLink], Response(200, StepsBody([], None, title, id)))
            == [Text(SolutionText(title, id))] + Quiz()
  {
  }
}
