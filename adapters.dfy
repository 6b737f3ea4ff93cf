/**
 * The chat adapters: a Twitch chat message and a YouTube live-chat item
 * become comments. HTML escaping is the application's `escapeHtml`, passed in.
 */
module Adapters {
  import opened Wrappers
  import opened Strings
  import opened JsNumber
  import opened Comments

  // ---------------------------------------------------------------------------
  // Twitch

  datatype Emote = Emote(id: string, code: string)

  datatype TwitchMessage = TwitchMessage(displayName: string, messageText: string, emotes: seq<Emote>)

  /** The image tag of an emote; animated emotes come from the version 2 path. */
  function EmoteImage(e: Emote, animation: bool, emoteSize: int): (r: string) {
    if animation then
      "<img src=\"https://static-cdn.jtvnw.net/emoticons/v2/" + e.id + "/default/light/" + NumToString(Int(emoteSize)) + ".0\" />"
    else
      "<img src=\"https://static-cdn.jtvnw.net/emoticons/v1/" + e.id + "/" + NumToString(Int(emoteSize)) + ".0\" />"
  }

  /** Each emote in turn replaces the first remaining occurrence of its code. */
  function ReplaceEmotes(text: string, emotes: seq<Emote>, animation: bool, emoteSize: int): (r: string)
    decreases |emotes|
  {
    if emotes == [] then text
    else ReplaceEmotes(ReplaceFirst(text, emotes[0].code, EmoteImage(emotes[0], animation, emoteSize)), emotes[1..], animation, emoteSize)
  }

  /** The comment for a Twitch chat message. */
  method TwitchComment(msg: TwitchMessage, cfg: Config, escape: string -> string) returns (c: Comment)
    ensures c == Comment(None, escape(msg.displayName), None,
                         ReplaceEmotes(escape(msg.messageText), msg.emotes, cfg.emoteAnimation, cfg.emoteSize),
                         "./img/twitch.png", None, Some("twitch"))
  {
    var imgUrl := "./img/twitch.png";
    var name := escape(msg.displayName);
    var text := escape(msg.messageText);
    ghost var text0 := text;
    for i := 0 to |msg.emotes|
      invariant ReplaceEmotes(text, msg.emotes[i..], cfg.emoteAnimation, cfg.emoteSize)
             == ReplaceEmotes(text0, msg.emotes, cfg.emoteAnimation, cfg.emoteSize)
    {
      var emote := msg.emotes[i];
      text := ReplaceFirst(text, emote.code, EmoteImage(emote, cfg.emoteAnimation, cfg.emoteSize));
    }
    assert msg.emotes[|msg.emotes|..] == [];
    c := Comment(None, name, None, text, imgUrl, None, Some("twitch"));
  }

  /** Replacing a list of emotes is replacing its first part, then the rest. */
  lemma {:induction false} ReplaceEmotesAppend(text: string, a: seq<Emote>, b: seq<Emote>, animation: bool, size: int)
    ensures ReplaceEmotes(text, a + b, animation, size) == ReplaceEmotes(ReplaceEmotes(text, a, animation, size), b, animation, size)
    decreases |a|
  {
    if a != [] {
      var t1 := ReplaceFirst(text, a[0].code, EmoteImage(a[0], animation, size));
      assert (a + b)[0] == a[0] && (a + b)[1..] == a[1..] + b;
      assert ReplaceEmotes(text, a + b, animation, size) == ReplaceEmotes(t1, a[1..] + b, animation, size);
      assert ReplaceEmotes(text, a, animation, size) == ReplaceEmotes(t1, a[1..], animation, size);
      ReplaceEmotesAppend(t1, a[1..], b, animation, size);
    } else {
      assert a + b == b;
    }
  }

  /** A message in which no emote code occurs keeps its text. */
  lemma {:induction false} ReplaceEmotesAbsent(text: string, emotes: seq<Emote>, animation: bool, size: int)
    requires forall k :: 0 <= k < |emotes| ==> !Contains(text, emotes[k].code)
    ensures ReplaceEmotes(text, emotes, animation, size) == text
    decreases |emotes|
  {
    if emotes != [] {
      assert !Contains(text, emotes[0].code);
      assert forall k :: 0 <= k < |emotes[1..]| ==> emotes[1..][k] == emotes[k + 1];
      ReplaceEmotesAbsent(text, emotes[1..], animation, size);
    }
  }

  /**
   * One emote replaces exactly the leftmost occurrence of its code with its
   * image; the text before and after it is kept.
   */
  lemma ReplaceOneEmote(text: string, e: Emote, animation: bool, size: int, i: nat)
    requires OccursAt(text, e.code, i) && forall j: nat :: j < i ==> !OccursAt(text, e.code, j)
    ensures ReplaceEmotes(text, [e], animation, size)
         == text[..i] + EmoteImage(e, animation, size) + text[i + |e.code|..]
  {
    var img := EmoteImage(e, animation, size);
    var r := ReplaceFirst(text, e.code, img);
    assert r == text[..i] + img + text[i + |e.code|..];
    assert [e][1..] == [];
    assert ReplaceEmotes(text, [e], animation, size) == ReplaceEmotes(r, [], animation, size);
  }

  // ---------------------------------------------------------------------------
  // YouTube

  /**
   * A part of a live-chat message: a text run or an emoji image. The code
   * reads `text` first and treats every part without a non-empty text as
   * an image.
   */
  datatype MessagePart = MessagePart(text: Option<string>, url: Option<string>)

  datatype ChatItem = ChatItem(authorName: string, thumbnail: Option<string>, message: seq<MessagePart>)

  predicate HasText(p: MessagePart) {
    p.text.Some? && p.text.value != ""
  }

  const EmojiOpen: string := "img src=\""
  const EmojiClose: string := "\" width=\"24\" height=\"24\" />"

  /** An emoji as an image tag; a missing URL prints as `undefined`. */
  function EmojiImage(url: Option<string>): (r: string) {
    "<" + EmojiOpen + url.GetOr("undefined") + EmojiClose
  }

  lemma EmojiImageOneTag(url: Option<string>)
    requires '<' !in url.GetOr("undefined")
    ensures CountTags(EmojiImage(url)) == 1
  {
    var rest := EmojiOpen + url.GetOr("undefined") + EmojiClose;
    assert '<' !in EmojiOpen && '<' !in EmojiClose;
    CountTagsNone(rest);
    ConcatAssoc("<", EmojiOpen + url.GetOr("undefined"), EmojiClose);
    ConcatAssoc("<", EmojiOpen, url.GetOr("undefined"));
    CountTagsAppend("<", rest);
  }

  function PartText(p: MessagePart, escape: string -> string): (r: string) {
    if HasText(p) then escape(p.text.value) else EmojiImage(p.url)
  }

  /** The parts' renderings, concatenated in order. */
  function PartsText(parts: seq<MessagePart>, escape: string -> string): (r: string)
    decreases |parts|
  {
    if parts == [] then "" else PartsText(parts[..|parts| - 1], escape) + PartText(parts[|parts| - 1], escape)
  }

  /** `createYoutubeComment` */
  method YoutubeComment(item: ChatItem, escape: string -> string) returns (c: Comment)
    ensures c == Comment(None, escape(item.authorName), None, PartsText(item.message, escape),
                         item.thumbnail.GetOr(""), None, Some("youtube"))
  {
    var imgUrl := item.thumbnail.GetOr("");
    var name := escape(item.authorName);
    var text := "";
    for i := 0 to |item.message|
      invariant text == PartsText(item.message[..i], escape)
    {
      var part := item.message[i];
      if HasText(part) {
        text := text + escape(part.text.value);
      } else {
        text := text + EmojiImage(part.url);
      }
      assert item.message[..i + 1][..i] == item.message[..i];
    }
    assert item.message[..|item.message|] == item.message;
    c := Comment(None, name, None, text, imgUrl, None, Some("youtube"));
  }

  /** The rendering of a message is the renderings of its halves, one after the other. */
  lemma {:induction false} PartsTextAppend(a: seq<MessagePart>, b: seq<MessagePart>, escape: string -> string)
    ensures PartsText(a + b, escape) == PartsText(a, escape) + PartsText(b, escape)
    decreases |b|
  {
    if b != [] {
      var b' := b[..|b| - 1];
      assert (a + b)[..|a + b| - 1] == a + b';
      assert (a + b)[|a + b| - 1] == b[|b| - 1];
      PartsTextAppend(a, b', escape);
      ConcatAssoc(PartsText(a, escape), PartsText(b', escape), PartText(b[|b| - 1], escape));
    } else {
      assert a + b == a;
    }
  }

  /** `'<'`s in a text. */
  function CountTags(s: string): (r: nat)
    decreases |s|
  {
    if s == [] then 0 else (if s[0] == '<' then 1 else 0) + CountTags(s[1..])
  }

  lemma {:induction false} CountTagsAppend(a: string, b: string)
    ensures CountTags(a + b) == CountTags(a) + CountTags(b)
    decreases |a|
  {
    if a != [] {
      assert (a + b)[0] == a[0] && (a + b)[1..] == a[1..] + b;
      CountTagsAppend(a[1..], b);
    } else {
      assert a + b == b;
    }
  }

  lemma {:induction false} CountTagsNone(s: string)
    requires '<' !in s
    ensures CountTags(s) == 0
    decreases |s|
  {
    if s != [] {
      assert s[0] in s;
      assert forall x :: x in s[1..] ==> x in s;
      CountTagsNone(s[1..]);
    }
  }

  function ImageParts(parts: seq<MessagePart>): (r: nat)
    decreases |parts|
  {
    if parts == [] then 0 else ImageParts(parts[..|parts| - 1]) + (if HasText(parts[|parts| - 1]) then 0 else 1)
  }

  /**
   * Escaped text holds no `<`: then every tag of a YouTube comment's text is
   * the image tag of one emoji part, one per image part.
   */
  lemma {:induction false} OneTagPerEmoji(parts: seq<MessagePart>, escape: string -> string)
    requires forall t :: '<' !in escape(t)
    requires forall k :: 0 <= k < |parts| ==> parts[k].url.Some? ==> '<' !in parts[k].url.value
    ensures CountTags(PartsText(parts, escape)) == ImageParts(parts)
    decreases |parts|
  {
    if parts != [] {
      var init := parts[..|parts| - 1];
      var p := parts[|parts| - 1];
      assert forall k :: 0 <= k < |init| ==> init[k] == parts[k];
      OneTagPerEmoji(init, escape);
      CountTagsAppend(PartsText(init, escape), PartText(p, escape));
      if HasText(p) {
        CountTagsNone(escape(p.text.value));
      } else {
        assert '<' !in p.url.GetOr("undefined");
        EmojiImageOneTag(p.url);
      }
    }
  }
}
