/**
 * `serverinfo`: one GET of the game-server status endpoint, answered with
 * the number of players online when the server reports itself available,
 * and with a fixed notice otherwise.
 */
module ServerInfo {
  import opened Wrappers
  import opened Decimal
  import opened Chat
  import opened Http

  /** The decoded status document: `{is_available, online_players}`. */
  datatype ServerStatus = ServerStatus(isAvailable: bool, onlinePlayers: int)

  const StatusUrl: string := "http://worldofwarships.ru/game-server-status/"

  const Available: string := "Сервер доступен. Количество игроков: "
  const Unavailable: string := "Сервер не доступен!"

  /** The server counts as up only on a 200 whose body says it is available. */
  predicate IsUp(resp: Response<ServerStatus>) {
    IsOk(resp) && resp.body.isAvailable
  }

  /** The handler with its single HTTP request: `fetch(url)` is what the GET returns. */
  function ServerInfo(fetch: string -> Response<ServerStatus>): (sent: seq<Message>)
    ensures |sent| == 1 && sent[0].replyMarkup == None
    ensures !sent[0].disableWebPagePreview && !sent[0].markdown
    ensures var resp := fetch(StatusUrl);
      if IsUp(resp) then sent[0].text == Available + IntToString(resp.body.onlinePlayers)
      else sent[0].text == Unavailable
  {
    var resp := fetch(StatusUrl);
    if resp.status == 200 && resp.body.isAvailable then
      [Text(Available + IntToString(resp.body.onlinePlayers))]
    else
      [Text(Unavailable)]
  }

  /** The fixed notice is sent exactly when the server is not up. */
  lemma UnavailableIffDown(fetch: string -> Response<ServerStatus>)
    ensures ServerInfo(fetch)[0].text == Unavailable <==> !IsUp(fetch(StatusUrl))
  {
    var resp := fetch(StatusUrl);
    if IsUp(resp) {
      var text := ServerInfo(fetch)[0].text;
      assert text[7] == Available[7] == 'д';
      assert Unavailable[7] == 'н';
    }
  }

  /** When the server is up, the player count can be read back from the end of the text. */
  lemma PlayersReadBack(fetch: string -> Response<ServerStatus>)
    requires IsUp(fetch(StatusUrl))
    ensures var text := ServerInfo(fetch)[0].text;
      && Available <= text
      && ParseInt(text[|Available|..]) == Some(fetch(StatusUrl).body.onlinePlayers)
  {
    var n := fetch(StatusUrl).body.onlinePlayers;
    var text := ServerInfo(fetch)[0].text;
    assert text[|Available|..] == IntToString(n);
    ParseIntToString(n);
  }

  /** Different player counts give different replies. */
  lemma CountsAreDistinguished(f: string -> Response<ServerStatus>, g: string -> Response<ServerStatus>)
    requires IsUp(f(StatusUrl)) && IsUp(g(StatusUrl))
    requires f(StatusUrl).body.onlinePlayers != g(StatusUrl).body.onlinePlayers
    ensures ServerInfo(f) != ServerInfo(g)
  {
    PlayersReadBack(f);
    PlayersReadBack(g);
    assert ServerInfo(f)[0].text != ServerInfo(g)[0].text;
  }
}
