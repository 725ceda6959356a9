/** The bot's message handler: which message, if any, it hands to the download
    queue, and the proxy type it gives the client. The fetches it makes through
    the Telegram client are parameters: what the fetch returned, with a failed or
    empty fetch as nothing. */
module Handler {
  import opened Wrappers
  import opened Links
  import Decimal

  /** The parts of a Telegram message the handler looks at. `text` is empty when
      the message has none. */
  datatype TgMessage = TgMessage(id: int, hasMedia: bool, isVideo: bool, isDocument: bool, isGif: bool,
                                 text: string, forward: Option<Forward>)

  /** `fwd_from`: the peer it came from (absent for hidden senders) and the post id. */
  datatype Forward = Forward(fromId: Option<int>, channelPost: int)

  /** What the handler did: the link it looked up, if any, and the message it
      handed to `add_task`, if any. */
  datatype Handled = Handled(lookup: Option<(ChatId, nat)>, queued: Option<TgMessage>)

  /** The media filter: a video, a document or a gif. */
  predicate Wanted(m: TgMessage) {
    m.isVideo || m.isDocument || m.isGif
  }

  /** A message without media that was forwarded from a known peer is replaced by
      its source, when the source could be fetched and has media. */
  function Target(message: TgMessage, source: Option<TgMessage>): (t: TgMessage)
    ensures t == message || (source.Some? && t == source.value && t.hasMedia)
    ensures message.hasMedia ==> t == message
  {
    if !message.hasMedia && message.forward.Some? && message.forward.value.fromId.Some?
       && source.Some? && source.value.hasMedia
    then source.value
    else message
  }

  /** `handler(event)`. `source` is what fetching a forwarded message's source
      returned; `linked` is what fetching the message a link names returned. A
      message whose target has media is filtered by type; otherwise the first
      t.me link in the message's own text is looked up. */
  function Handle(message: TgMessage, source: Option<TgMessage>, linked: Option<TgMessage>): (r: Handled)
    ensures r.queued.Some? ==> r.queued.value.hasMedia && Wanted(r.queued.value)
    ensures r.lookup.Some? ==> r.lookup == ParseLink(message.text) && |message.text| > 0
    ensures r.queued.Some? && r.lookup.Some? ==> r.queued == linked
  {
    var target := Target(message, source);
    if target.hasMedia then Handled(None, if Wanted(target) then Some(target) else None)
    else if |message.text| > 0 then
      match ParseLink(message.text)
      case None => Handled(None, None)
      case Some(request) =>
        Handled(Some(request), if linked.Some? && linked.value.hasMedia && Wanted(linked.value) then linked else None)
    else Handled(None, None)
  }

  /** Whatever the fetches return, a message the filter rejects is never queued,
      and one it accepts is queued as it is; a message with media never causes a
      link lookup. */
  lemma MediaMessageFiltered(message: TgMessage, source: Option<TgMessage>, linked: Option<TgMessage>)
    requires message.hasMedia
    ensures Handle(message, source, linked).lookup.None?
    ensures Handle(message, source, linked).queued.Some? <==> Wanted(message)
    ensures Handle(message, source, linked).queued.Some? ==> Handle(message, source, linked).queued.value == message
  {
  }

  /** A forwarded message without media stands for its source when the source
      could be fetched and has media: the source is what the filter sees and what
      is queued. */
  lemma ForwardedSourceFiltered(message: TgMessage, source: TgMessage, linked: Option<TgMessage>)
    requires !message.hasMedia && message.forward.Some? && message.forward.value.fromId.Some? && source.hasMedia
    ensures Handle(message, Some(source), linked).lookup.None?
    ensures Handle(message, Some(source), linked).queued == if Wanted(source) then Some(source) else None
  {
  }

  /** A text message with a link is queued exactly when the linked message could
      be fetched, has media and passes the filter; it is looked up by the link's
      chat and message id. */
  lemma LinkMessageQueued(message: TgMessage, linked: Option<TgMessage>, l: TmeLink, secure: bool, rest: string)
    requires !message.hasMedia && message.forward.None?
    requires ValidLink(l) && (|rest| == 0 || !(Decimal.IsDigit(rest[0]) || rest[0] == '/'))
    requires message.text == Render(l, secure) + rest
    ensures var r := Handle(message, None, linked);
            && r.lookup == Some((ChatIdentifier(l.chat), Decimal.DigitsValue(l.msgDigits)))
            && (r.queued.Some? <==> linked.Some? && linked.value.hasMedia && Wanted(linked.value))
  {
    ParseRenderedLink(l, secure, rest);
  }

  /** The proxy types the client library knows. */
  datatype ProxyType = SOCKS5 | HTTP

  datatype ProxyConfig = ProxyConfig(scheme: Option<string>, hostname: string, port: int)

  /** The client's proxy tuple: SOCKS5 for the scheme "socks5", HTTP for any other
      scheme or none; no proxy when none is configured. */
  function ClientProxy(proxy: Option<ProxyConfig>): (r: Option<(ProxyType, string, int)>)
    ensures r.None? <==> proxy.None?
    ensures r.Some? ==> (r.value.0 == SOCKS5 <==> proxy.value.scheme == Some("socks5"))
    ensures r.Some? ==> r.value.1 == proxy.value.hostname && r.value.2 == proxy.value.port
  {
    match proxy
    case None => None
    case Some(p) => Some((if p.scheme == Some("socks5") then SOCKS5 else HTTP, p.hostname, p.port))
  }
}
