/**
 * Outgoing chat messages, reply keyboards, the fixed menus and quiz, and
 * the handlers whose replies are constant.
 */
module Chat {
  import opened Wrappers

  /** A reply keyboard: rows of button labels and the two display flags. */
  datatype Keyboard = Keyboard(rows: seq<seq<string>>, resizeKeyboard: bool, oneTimeKeyboard: bool)

  /** One message the bot sends: its text, an optional keyboard and the send options. */
  datatype Message = Message(
    text: string,
    replyMarkup: Option<Keyboard>,
    disableWebPagePreview: bool,
    markdown: bool)

  /** A plain text message with no keyboard and default options. */
  function Text(t: string): Message {
    Message(t, None, false, false)
  }

  /** A text message sent with `disable_web_page_preview=True`. */
  function TextNoPreview(t: string): Message {
    Message(t, None, true, false)
  }

  /** A text message carrying a reply keyboard. */
  function WithKeyboard(t: string, kb: Keyboard): Message {
    Message(t, Some(kb), false, false)
  }

  /** Every row holds exactly one button. */
  predicate OneButtonPerRow(kb: Keyboard) {
    forall i :: 0 <= i < |kb.rows| ==> |kb.rows[i]| == 1
  }

  /** The button labels of a keyboard, row by row. */
  function Labels(rows: seq<seq<string>>): seq<string> {
    if rows == [] then [] else rows[0] + Labels(rows[1..])
  }

  /**
   * The layout of every menu: one row per label in the given order, each
   * row a single button showing that label, resized and hidden after use.
   */
  function SingleColumn(labels: seq<string>): (kb: Keyboard)
    ensures |kb.rows| == |labels| && OneButtonPerRow(kb)
    ensures forall i :: 0 <= i < |labels| ==> kb.rows[i] == [labels[i]]
    ensures kb.resizeKeyboard && kb.oneTimeKeyboard
  {
    Keyboard(seq(|labels|, i requires 0 <= i < |labels| => [labels[i]]), true, true)
  }

  /** Reading the buttons of a single-column layout gives back the labels, in order. */
  lemma {:induction false} LabelsOfSingleColumn(labels: seq<string>)
    ensures Labels(SingleColumn(labels).rows) == labels
    decreases |labels|
  {
    if labels != [] {
      assert SingleColumn(labels).rows[1..] == SingleColumn(labels[1..]).rows;
      LabelsOfSingleColumn(labels[1..]);
      assert [labels[0]] + labels[1..] == labels;
    }
  }

  /** Two label lists give the same layout only if they are the same list. */
  lemma SingleColumnInjective(a: seq<string>, b: seq<string>)
    requires SingleColumn(a) == SingleColumn(b)
    ensures a == b
  {
    LabelsOfSingleColumn(a);
    LabelsOfSingleColumn(b);
  }

  const MainMenuLabels: seq<string> := [
    "Не дошли деньги!",
    "У меня проблема!",
    "Скачать клиент",
    "Что нового?",
    "Доложи обстановку!",
    "Отмена"
  ]

  const ExtraMenuLabels: seq<string> := ["Статистика", "Опросы", "Радио"]

  const QuizLabels: seq<string> := ["Да, спасибо.", "Нет! Два дня драить палубу!"]

  /** `mainmenu`: the greeting question with the six-button main menu. */
  function MainMenu(): seq<Message> {
    [WithKeyboard("Чем я могу помочь?", SingleColumn(MainMenuLabels))]
  }

  /** `extramenu`: the three-button menu of extra features. */
  function ExtraMenu(): seq<Message> {
    [WithKeyboard("Я так же умею:", SingleColumn(ExtraMenuLabels))]
  }

  /** The quiz keyboard, written out row by row as the handler does. */
  const QuizKeyboard: Keyboard :=
    Keyboard([["Да, спасибо."], ["Нет! Два дня драить палубу!"]], true, true)

  /** `quiz`: the satisfaction question with its two answers. */
  function Quiz(): seq<Message> {
    [WithKeyboard("Капитан, помог ли я вам?", QuizKeyboard)]
  }

  /** The keyboard a one-message reply carries, if any. */
  function KeyboardOf(sent: seq<Message>): Option<Keyboard> {
    if |sent| == 1 then sent[0].replyMarkup else None
  }

  /**
   * The main menu has the six labels, the extra menu the three, the quiz
   * the two, each as one button per row in that order, with both flags set.
   */
  lemma MenuLayouts()
    ensures KeyboardOf(MainMenu()) == Some(SingleColumn(MainMenuLabels))
    ensures |MainMenuLabels| == 6 && Labels(SingleColumn(MainMenuLabels).rows) == MainMenuLabels
    ensures KeyboardOf(ExtraMenu()) == Some(SingleColumn(ExtraMenuLabels))
    ensures |ExtraMenuLabels| == 3 && Labels(SingleColumn(ExtraMenuLabels).rows) == ExtraMenuLabels
    ensures KeyboardOf(Quiz()) == Some(SingleColumn(QuizLabels))
    ensures |QuizLabels| == 2 && Labels(SingleColumn(QuizLabels).rows) == QuizLabels
  {
    LabelsOfSingleColumn(MainMenuLabels);
    LabelsOfSingleColumn(ExtraMenuLabels);
    LabelsOfSingleColumn(QuizLabels);
    assert SingleColumn(QuizLabels).rows == QuizKeyboard.rows;
  }

  // ---------------------------------------------------------------------
  // Handlers whose replies are constant.

  /** `default` and `backtomenu`: show the main menu. */
  function Default(): seq<Message> {
    MainMenu()
  }

  function Start(): seq<Message> {
    [Text("Добро пожаловать, Капитан!")] + Default()
  }

  function Restart(): seq<Message> {
    [TextNoPreview("С возвращением, Капитан!")] + MainMenu()
  }

  function Stop(): seq<Message> {
    [TextNoPreview("Всего хорошего, Капитан!")]
  }

  function News(): seq<Message> {
    [TextNoPreview("Новостной канал: http://telegram.me/world_of_warships")] + MainMenu()
  }

  function Download(): seq<Message> {
    [Text("Скачать игру: http://worldofwarships.ru/ru/content/game/?autodownload")] + MainMenu()
  }

  function Cancel(): seq<Message> {
    [Text("Так точно. Отменено!")]
  }

  /** One keyboard-free text followed by the main menu. */
  predicate TextThenMainMenu(r: seq<Message>) {
    |r| == 2 && r[0].replyMarkup == None && r[1..] == MainMenu()
  }

  /** A single keyboard-free text. */
  predicate TextOnly(r: seq<Message>) {
    |r| == 1 && r[0].replyMarkup == None
  }

  /**
   * `start`, `restart`, `news` and `download` send one text and then the
   * main menu; `stop` and `cancel` send one text and no keyboard.
   */
  lemma ConstantReplies()
    ensures TextThenMainMenu(Start()) && TextThenMainMenu(Restart())
    ensures TextThenMainMenu(News()) && TextThenMainMenu(Download())
    ensures TextOnly(Stop()) && TextOnly(Cancel())
    ensures Default() == MainMenu()
  {
  }
}
