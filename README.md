# World of Warships support bot: reply rendering

This project models the reply-rendering core of a Telegram bot for World of Warships players, `bot/main.py`. For each command it models what the bot sends back:

- the fixed greetings and notices;
- the reply-keyboard menus: a main menu of six buttons, an extra menu of three, and a two-answer satisfaction quiz;
- the knowledge-base search (`help`);
- the troubleshooter walk: `retrieve_steps` and the four handlers that call it;
- the game-server status report (`serverinfo`).

An HTTP GET is a parameter `fetch: string -> Response<T>`. It maps a URL to the status code and the decoded JSON body that the request would return. Because of this, the URL each handler requests is part of what is proved.

Modules:

- `Wrappers`: the `Option` type for JSON fields that may be absent.
- `Decimal`: renders an `int` the way `str.format` does, and parses such text back.
- `Texts`: formats each item of a list and concatenates the pieces, either as one join or as a loop doing `text += …`.
- `Markdown`: `convert_to_md`. Its two `str.replace` passes are written as an imperative loop and proved equal to an independent one-pass rewrite, `MarkToStar`.
- `Chat`: messages, keyboards, the menus, the quiz and the constant handlers.
- `Http`: the response type and the support-site prefix.
- `Search`: `help`.
- `Troubleshooter`: `retrieve_steps` (an imperative method) and `troubleshooter`, `troubleshooter_steps`, `troubleshooter_category` and `money`.
- `ServerInfo`: `serverinfo`.

Behaviour worth noting:

- A category or step with no child steps sends the "Решение: …" solution text and then the quiz, and never the extra links. This holds for the root category too (`RootWithoutSteps`).
- A troubleshooter response with a status other than 200 sends nothing at all (`NothingOnError`).
- A network failure in `help` raises out of the handler, so no apology is sent. The model has no network failures (see Left out).

## Model

| member | source | states |
|---|---|---|
| Markdown.ConvertToMd | bot/main.py:110-118 | the loop that applies `str.replace` (modelled by `Markdown.ReplaceAll`: Python's `str.replace` for a non-empty pattern, leftmost and non-overlapping, bot/main.py:117) once per mapping entry returns exactly the one-pass rewrite `MarkToStar` of its input |
| Markdown.MappingIsOnePass | bot/main.py:111-117 | replacing the opening tag and then the closing tag across the whole text equals rewriting both tags in one left-to-right pass |
| Markdown.TwoPassesAreOnePass | bot/main.py:116-117 | `s.replace(open, "*").replace(close, "*")` equals the one-pass rewrite, for every string |
| Markdown.PassOrderIrrelevant | bot/main.py:116-117 | `s.replace(close, "*").replace(open, "*")` also equals the one-pass rewrite, so the result does not depend on the order `mapping.items()` yields its two entries in |
| Markdown.NoTagsLeft | bot/main.py:110-118 | the converted text contains neither the opening nor the closing highlight tag |
| Markdown.IdentityWithoutTags | bot/main.py:110-118 | text holding neither tag is returned unchanged |
| Markdown.Idempotent | bot/main.py:110-118 | converting converted text changes nothing |
| Markdown.EveryOpenTag | bot/main.py:112 | every opening tag, wherever it stands in the text, becomes exactly one `*`, and the text before and after it is converted on its own |
| Markdown.OpenTagBecomesStar | bot/main.py:112 | the front case of `EveryOpenTag`: an opening tag at the front becomes `*`, and the rest is converted on its own |
| Markdown.EveryCloseTag | bot/main.py:113 | every closing tag, wherever it stands in the text, becomes exactly one `*`, and the text before and after it is converted on its own |
| Markdown.CloseTagBecomesStar | bot/main.py:113 | the front case of `EveryCloseTag`: a closing tag at the front becomes `*`, and the rest is converted on its own |
| Markdown.SplitBeforeLt | bot/main.py:116-117 | converting `t + u` converts `t` and `u` separately when `u` starts with `<`, since `<` occurs only first in either tag |
| Markdown.SplitBeforeSafeStart | bot/main.py:141 | converting `t + u` converts `t` and `u` separately when `u` starts with a character that cannot end a tag and one that no tag contains |
| Markdown.CopyNoLt | bot/main.py:141 | a prefix without `<` passes through the conversion unchanged |
| Texts.AppendFormatted | bot/main.py:163-176 | the `text += template.format(item)` loop over a list leaves the starting text followed by every item's piece, in list order |
| Texts.JoinAppend | bot/main.py:141 | the pieces of `a + b` are the pieces of `a` followed by the pieces of `b` |
| Texts.JoinInOrder | bot/main.py:175-176 | item `k`'s piece comes right after the pieces of the items before it, as a prefix of the whole |
| Decimal.NatToString | bot/main.py:165 | rendering a natural number gives non-empty text with no leading zero |
| Decimal.NatToStringDigits | bot/main.py:165 | the rendering of a natural number is made of digits only |
| Decimal.IntToStringShape | bot/main.py:179 | a rendered `int` starts with `-` exactly when it is negative, and every other character is a digit |
| Decimal.ParseNatToString | bot/main.py:196 | the `\d+` digits of a rendered natural number read back as that number |
| Decimal.ParseIntToString | bot/main.py:261-263 | a rendered `int` reads back as that `int` |
| Decimal.IntToStringInjective | bot/main.py:261-263 | different integers render as different text |
| Chat.SingleColumn | bot/main.py:39-43 | one row per label in the given order, each row a single button with that label, with both the resize and the one-time flags set |
| Chat.LabelsOfSingleColumn | bot/main.py:40 | reading the buttons of the layout row by row gives back the label list |
| Chat.SingleColumnInjective | bot/main.py:40 | two label lists build the same keyboard only when they are the same list |
| Chat.MenuLayouts | bot/main.py:26-64 | about `Chat.MainMenu`, `Chat.ExtraMenu` and `Chat.Quiz`: `mainmenu` carries the six labels, `extramenu` the three and `quiz` the two, each one button per row in source order, both flags set |
| Chat.ConstantReplies | bot/main.py:67-107 | about `Chat.Start`, `Chat.Restart`, `Chat.Stop`, `Chat.News`, `Chat.Download`, `Chat.Cancel` and `Chat.Default`: `start`, `restart`, `news` and `download` send one text with no keyboard and then the main menu; `stop` and `cancel` send one keyboard-free text; `default` is the main menu |
| Search.Help | bot/main.py:121-147 | one message with preview disabled and Markdown parsing. On a 200 with `total > 0` the text is each article's converted title followed by its article link, in order. Otherwise it is the apology followed by the query verbatim |
| Search.ConvertBlocks | bot/main.py:140-141 | converting the joined article blocks converts only the titles and leaves every article link intact |
| Search.ConvertBlock | bot/main.py:140 | converting one block followed by any text converts the title, keeps the link, and converts what follows on its own |
| Search.LinkPartIsSafe | bot/main.py:140 | the link part of a block holds no `<` and starts so that no tag can run into it |
| Search.QueryVerbatim | bot/main.py:128-130 | the query sits in the search URL unencoded, right after `query=` |
| Search.NotFoundKeepsTags | bot/main.py:132 | the apology path does not convert the echoed query, so an opening or a closing tag in the query reaches the reply |
| Search.NothingFoundExample | bot/main.py:132-138 | `{total: 0}` for "foo" gives the apology ending in "foo" |
| Search.OneHitExample | bot/main.py:138-141 | one hit `{title: "T", id: 5}` gives `T <site>/kb/articles/5` and a blank line |
| Search.PositiveTotalNoArticles | bot/main.py:138-141 | a positive total with no articles gives an empty text, not the apology |
| Troubleshooter.RetrieveSteps | bot/main.py:158-193 | the sent messages are `StepsReply` of the extra links and the response to `apiUrl` |
| Troubleshooter.TroubleshooterSteps | bot/main.py:196-203 | fetches `…/api/troubleshooter/steps/<id>` with no extra links |
| Troubleshooter.TroubleshooterCategory | bot/main.py:206-212 | fetches `…/api/troubleshooter/categories/<id>` with no extra links |
| Troubleshooter.Troubleshooter | bot/main.py:215-225 | fetches category 16 with the single extra link "Финансовые вопросы" to step 1468 |
| Troubleshooter.Money | bot/main.py:247-250 | fetches step 1468 with no extra links |
| Troubleshooter.SmallIds | bot/main.py:221 | the ids 16 and 1468 render as "16" and "1468" |
| Troubleshooter.NothingOnError | bot/main.py:169 | a non-200 status sends nothing |
| Troubleshooter.StepListShape | bot/main.py:163-184 | with child steps: one keyboard-free message, holding the header, then the extra links' and the steps' lines in input order, then the back link exactly when `parent_id` is truthy |
| Troubleshooter.BackLinkIffParent | bot/main.py:178-179 | the step list ends in a line break exactly when no back link was appended |
| Troubleshooter.TerminalShape | bot/main.py:185-193 | with no child steps: the solution text, then the quiz, whatever the extra links |
| Troubleshooter.DeepLinkRoundTrip | bot/main.py:161 | the `/troubleshooter_steps_(\d+)` command reads a deep link back as its id when the id is non-negative; a negative id is not matched |
| Troubleshooter.FinanceShortcutIsMoney | bot/main.py:196-203 | the finance shortcut's deep link carries the id 1468, and the digit text `troubleshooter_steps` takes from it builds the step URL that `money` fetches (bot/main.py:223-224, 247-250) |
| Troubleshooter.RootWithoutSteps | bot/main.py:219-225 | the root category with no child steps gives the solution and the quiz, not the finance shortcut |
| ServerInfo.ServerInfo | bot/main.py:253-266 | one plain message. On a 200 whose body is available, the text is the available notice followed by the player count. Otherwise it is the unavailable notice |
| ServerInfo.UnavailableIffDown | bot/main.py:260-265 | the unavailable notice is sent exactly when the status is not 200 or the body is not available |
| ServerInfo.PlayersReadBack | bot/main.py:261-263 | when the server is up, the text after the available notice reads back as the player count |
| ServerInfo.CountsAreDistinguished | bot/main.py:261-263 | two different player counts give two different replies |

## Left out

- HTTP, `aiohttp` sessions and `async`/`await` are not modelled. Each GET is the `fetch` parameter, so connection errors, timeouts and the exceptions they raise are not modelled.
- JSON decoding is not modelled. Bodies arrive already decoded into `SearchBody`, `StepsBody` and `ServerStatus`, and every field is assumed to have the type these datatypes give it. With other values the code either raises (a non-numeric `total` at bot/main.py:138, a non-empty `steps` that is not a list of dicts at bot/main.py:174-176, a missing key that the branch taken reads: `total` and `articles` at bot/main.py:138-139, `steps` at bot/main.py:172, `title` and `id` only in the terminal branch at bot/main.py:189-190, `is_available` only after a 200 at bot/main.py:261) or formats and tests the value as Python does: a `None` or string `title`/`id` is formatted into the text (bot/main.py:140, 161, 188-190), a string `parent_id` is tested for truthiness and formatted in, so `"0"` counts as a parent where the integer `0` does not (bot/main.py:178-179), and a non-bool `is_available` or a non-integer `online_players` decides and prints by Python's rules (bot/main.py:260-263). None of that is modelled.
- `serverinfo` decodes the body before it checks the status; a non-JSON error page raises there. This ordering is not modelled.
- The `X-Requested-With` header of the status request is not modelled. Only the requested URL is.
- Command dispatch is not modelled: the trigger table, regex matching, `match.group(1)` and the fall-through to `default`. Each handler takes the matched text as its argument. `CommandStepId` is only the inverse used for the deep-link round trip.
- `send_chat_action` (the typing indicator), the `callback` handler, logging, bot start-up and environment tokens are side effects with no bearing on the replies.
- `get_user_stat` is not modelled: its body is `pass`.
- The JSON serialisation of keyboards (`json.dumps(...to_dict())`) is not modelled. A keyboard is kept as its rows of labels and its two flags.
- Chat ids and the Telegram client are not modelled. A handler's result is the list of messages it sends, in order.
- URL encoding is not modelled: the search query is spliced into the URL as raw text, as the code does, and how the server reads an unencoded `&` or `#` is outside the model.
