/**
 * The comment renderer: the HTML fragment of one comment for the chat window
 * and the browser overlay (`createDom`), the fragment of a translated comment
 * (`createTranslateDom`), the text handed to the speech synthesiser, and the
 * preparation of a comment for the translation window.
 */
module Render {
  import opened Wrappers
  import opened Strings
  import opened Links
  import opened Comments

  /** Where a fragment is shown: the application's chat window or the browser overlay. */
  datatype Target = Chat | Server

  // ---------------------------------------------------------------------------
  // the pieces of a comment fragment

  const ListItemOpen: string := "<li class=\"list-item\">"
  const ContentOpen: string := "<div class=\"content\">"
  const LineBreak: string := "<br />"
  const ThumbnailOpen: string := "<div class=\"thumbnail\">"
  const ThumbnailClose: string := "</div>"
  const Closing: string := "</div>\n  </li>"

  function IconBlock(imgUrl: string): (r: string) {
    "\n    <span class=\"icon-block\">\n      <img class=\"icon\" src=\"" + imgUrl + "\">\n    </span>\n    "
  }

  function NumberSpan(number: string): (r: string) {
    "\n      <span class=\"resNumber\">" + number + "</span>\n    "
  }

  function NameSpan(name: string): (r: string) {
    "<span class=\"name\">" + name + "</span>"
  }

  function DateSpan(date: string): (r: string) {
    "<span class=\"date\">" + date + "</span>"
  }

  /** The comment body; ASCII art gets its own class. */
  function ResBody(commentText: string, isAA: bool): (r: string) {
    "\n    <span class=\"" + (if isAA then "aares" else "res") + "\">\n      " + commentText + "\n    </span>\n  "
  }

  /** A thumbnail; a `ttp…` URL is completed to `http…`. */
  function ImageTag(url: string): (r: string) {
    "<img class=\"img\" src=\"" + FixScheme(url) + "\" onClick='imageopen(\"" + FixScheme(url) + "\")' />"
  }

  /** `imgUrls.map(…).join('')` */
  function ImageTags(urls: seq<string>): (r: string) {
    if urls == [] then "" else ImageTag(urls[0]) + ImageTags(urls[1..])
  }

  // ---------------------------------------------------------------------------
  // which pieces are shown

  predicate ShowsNumber(cfg: Config, c: Comment) {
    cfg.showNumber && c.HasNumber()
  }

  predicate ShowsName(cfg: Config, c: Comment) {
    cfg.showName && c.HasName()
  }

  predicate ShowsDate(cfg: Config, c: Comment) {
    cfg.showTime && c.HasDate()
  }

  /** Something of the header row (icon, number, name or time) is shown. */
  predicate HeaderShown(cfg: Config, c: Comment) {
    cfg.showIcon || ShowsNumber(cfg, c) || ShowsName(cfg, c) || ShowsDate(cfg, c)
  }

  /**
   * The header is separated from the body by a line break when line breaks
   * are on and the header row is not empty, and always for ASCII art in AA mode.
   */
  predicate BreaksAfterHeader(cfg: Config, c: Comment, isAA: bool) {
    (cfg.newLine && HeaderShown(cfg, c)) || (cfg.aamode.enable && isAA)
  }

  /** Thumbnail mode 1 shows thumbnails in the chat window only, mode 2 everywhere. */
  predicate ThumbnailShown(cfg: Config, target: Target) {
    (cfg.thumbnail == 1 && target == Chat) || cfg.thumbnail == 2
  }

  /** The header row: the list item opens, then the icon, the number, the name and the time, each when shown. */
  function HeaderRow(cfg: Config, c: Comment): (r: string) {
    var d0 := ListItemOpen;
    var d1 := if cfg.showIcon then d0 + IconBlock(c.imgUrl) else d0;
    var d2 := d1 + ContentOpen;
    var d3 := if ShowsNumber(cfg, c) then d2 + NumberSpan(c.number.value) else d2;
    var d4 := if ShowsName(cfg, c) then d3 + NameSpan(c.name) else d3;
    if ShowsDate(cfg, c) then d4 + DateSpan(c.date.value) else d4
  }

  /** Board anchors are stripped from the text before anything else looks at it. */
  function StripAnchors(text: string): (r: string) {
    ReplaceAll(ReplaceLazy(text, "<a ", ">", ""), "<\\a>", "")
  }

  /** The header row followed by the line break when there is one. */
  function HeaderBreak(cfg: Config, c: Comment, isAA: bool): (r: string) {
    var h := HeaderRow(cfg, c);
    if BreaksAfterHeader(cfg, c, isAA) then h + LineBreak else h
  }

  /** Header, the optional line break and the link-ified body. */
  function Framed(c: Comment, cfg: Config, isAA: bool): (r: string) {
    HeaderBreak(cfg, c, isAA) + ResBody(Linkify(StripAnchors(c.text)), isAA)
  }

  /** Removes the first link span of each image URL, one URL after the other, from the whole fragment. */
  function HideSpans(dom: string, urls: seq<string>): (r: string)
    decreases |urls|
  {
    if urls == [] then dom else HideSpans(ReplaceFirst(dom, UrlSpan(urls[0]), ""), urls[1..])
  }

  /** The thumbnail block is appended when it is shown and the text has image URLs. */
  function WithThumbnails(dom: string, cfg: Config, target: Target, urls: seq<string>): (r: string) {
    if ThumbnailShown(cfg, target) && |urls| > 0 then
      var d := dom + ThumbnailOpen + ImageTags(urls) + ThumbnailClose;
      if cfg.hideImgUrl then HideSpans(d, urls) else d
    else dom
  }

  /** The fragment `createDom` builds for one comment. */
  function CommentDom(c: Comment, cfg: Config, target: Target, isAA: bool): (r: string) {
    WithThumbnails(Framed(c, cfg, isAA), cfg, target, ImgUrls(StripAnchors(c.text))) + Closing
  }

  /** The header row of `createDom`, with the flag that records whether it has content. */
  method HeaderDom(c: Comment, cfg: Config) returns (dom: string, isResNameShowed: bool)
    ensures dom == HeaderRow(cfg, c)
    ensures isResNameShowed == HeaderShown(cfg, c)
  {
    dom := ListItemOpen;
    isResNameShowed := false;
    if cfg.showIcon {
      dom := dom + IconBlock(c.imgUrl);
      isResNameShowed := true;
    }
    dom := dom + ContentOpen;
    if cfg.showNumber && c.HasNumber() {
      dom := dom + NumberSpan(c.number.value);
      isResNameShowed := true;
    }
    if cfg.showName && c.HasName() {
      dom := dom + NameSpan(c.name);
      isResNameShowed := true;
    }
    if cfg.showTime && c.HasDate() {
      dom := dom + DateSpan(c.date.value);
      isResNameShowed := true;
    }
  }

  /** The `hideImgUrl` loop: each image URL's first link span is removed from the whole fragment. */
  method HideImageUrls(dom0: string, imgUrls: seq<string>) returns (dom: string)
    ensures dom == HideSpans(dom0, imgUrls)
  {
    dom := dom0;
    for i := 0 to |imgUrls|
      invariant HideSpans(dom, imgUrls[i..]) == HideSpans(dom0, imgUrls)
    {
      dom := ReplaceFirst(dom, UrlSpan(imgUrls[i]), "");
    }
    assert imgUrls[|imgUrls|..] == [];
  }

  /** The thumbnail block of `createDom`, with the image URLs of the text. */
  method AppendThumbnails(dom0: string, cfg: Config, target: Target, text: string) returns (dom: string)
    ensures dom == WithThumbnails(dom0, cfg, target, ImgUrls(text))
  {
    dom := dom0;
    if ThumbnailShown(cfg, target) {
      var imgUrls := ImgUrls(text);
      if |imgUrls| > 0 {
        dom := dom + ThumbnailOpen;
        dom := dom + ImageTags(imgUrls);
        dom := dom + ThumbnailClose;
        if cfg.hideImgUrl {
          dom := HideImageUrls(dom, imgUrls);
        }
      }
    }
  }

  /** `createDom`, step by step. */
  method CreateDom(c: Comment, cfg: Config, target: Target, isAA: bool) returns (dom: string)
    ensures dom == CommentDom(c, cfg, target, isAA)
  {
    var isResNameShowed;
    dom, isResNameShowed := HeaderDom(c, cfg);
    if cfg.newLine && isResNameShowed {
      dom := dom + LineBreak;
    } else if cfg.aamode.enable && isAA {
      dom := dom + LineBreak;
    }
    var text := StripAnchors(c.text);
    var tempText := Mask(text);
    var commentText := WrapUrls(tempText);
    commentText := Unmask(commentText);
    dom := dom + ResBody(commentText, isAA);
    dom := AppendThumbnails(dom, cfg, target, text);
    dom := dom + Closing;
  }

  // ---------------------------------------------------------------------------
  // what the fragment promises

  /** The body starts on a new line, the line break starts a tag. */
  lemma BodyStartsWithNewline(commentText: string, isAA: bool)
    ensures |ResBody(commentText, isAA)| > 0 && ResBody(commentText, isAA)[0] == '\n'
  {
  }

  /** While image-URL spans are kept, the fragment extends the header, line break and body. */
  lemma FramedPrefix(c: Comment, cfg: Config, target: Target, isAA: bool)
    requires !cfg.hideImgUrl
    ensures StartsWith(CommentDom(c, cfg, target, isAA), Framed(c, cfg, isAA))
  {
    var f := Framed(c, cfg, isAA);
    var urls := ImgUrls(StripAnchors(c.text));
    var w := WithThumbnails(f, cfg, target, urls);
    StartsWithConcat(f, []);
    assert f + [] == f;
    if ThumbnailShown(cfg, target) && |urls| > 0 {
      StartsWithExtend(f, f, ThumbnailOpen);
      StartsWithExtend(f + ThumbnailOpen, f, ImageTags(urls));
      StartsWithExtend(f + ThumbnailOpen + ImageTags(urls), f, ThumbnailClose);
    }
    StartsWithExtend(w, f, Closing);
  }

  /**
   * The line break after the header is there exactly when line breaks are on
   * and the header row has content, or the comment is ASCII art in AA mode
   * (stated for fragments whose image-URL spans are kept).
   */
  lemma BreakRule(c: Comment, cfg: Config, target: Target, isAA: bool)
    requires !cfg.hideImgUrl
    ensures StartsWith(CommentDom(c, cfg, target, isAA), HeaderRow(cfg, c) + LineBreak)
        <==> BreaksAfterHeader(cfg, c, isAA)
  {
    var h := HeaderRow(cfg, c);
    var body := ResBody(Linkify(StripAnchors(c.text)), isAA);
    var f := Framed(c, cfg, isAA);
    var dom := CommentDom(c, cfg, target, isAA);
    FramedPrefix(c, cfg, target, isAA);
    BodyStartsWithNewline(Linkify(StripAnchors(c.text)), isAA);
    if BreaksAfterHeader(cfg, c, isAA) {
      StartsWithConcat(h + LineBreak, body);
      StartsWithTrans(dom, f, h + LineBreak);
    } else {
      assert f == h + body;
      assert dom[|h|] == f[|h|] == body[0];
      assert (h + LineBreak)[|h|] == '<';
    }
  }

  /**
   * Without thumbnails — turned off, mode 1 on the overlay, or no image URL
   * in the text — the fragment is the header, line break and body, closed.
   */
  lemma NoThumbnails(c: Comment, cfg: Config, target: Target, isAA: bool)
    requires !ThumbnailShown(cfg, target) || ImgUrls(StripAnchors(c.text)) == []
    ensures CommentDom(c, cfg, target, isAA) == Framed(c, cfg, isAA) + Closing
  {
  }

  /** Hiding image-URL spans only ever removes text. */
  lemma {:induction false} HideSpansShrinks(dom: string, urls: seq<string>)
    ensures |HideSpans(dom, urls)| <= |dom|
    decreases |urls|
  {
    if urls != [] {
      HideSpansShrinks(ReplaceFirst(dom, UrlSpan(urls[0]), ""), urls[1..]);
    }
  }

  /** Hiding URLs whose spans the fragment does not hold leaves the fragment as it is. */
  lemma {:induction false} HideSpansAbsent(dom: string, urls: seq<string>)
    requires forall k :: 0 <= k < |urls| ==> !Contains(dom, UrlSpan(urls[k]))
    ensures HideSpans(dom, urls) == dom
    decreases |urls|
  {
    if urls != [] {
      assert !Contains(dom, UrlSpan(urls[0]));
      assert forall k :: 0 <= k < |urls[1..]| ==> urls[1..][k] == urls[k + 1];
      HideSpansAbsent(dom, urls[1..]);
    }
  }

  /** The joined thumbnail tags hold the tag of every URL. */
  lemma {:induction false} ImageTagsHold(urls: seq<string>, k: nat)
    requires k < |urls|
    ensures Contains(ImageTags(urls), ImageTag(urls[k]))
    decreases k
  {
    var head := ImageTag(urls[0]);
    var rest := ImageTags(urls[1..]);
    if k == 0 {
      assert OccursAt(head + rest, head, 0);
    } else {
      ImageTagsHold(urls[1..], k - 1);
      assert urls[1..][k - 1] == urls[k];
      ContainsInner(head, rest, [], ImageTag(urls[k]));
      assert head + rest + [] == head + rest;
    }
  }

  /**
   * With thumbnails shown and URL spans kept, the fragment holds a thumbnail
   * for every image URL of the text, and every thumbnail source is an
   * `http` URL.
   */
  lemma ThumbnailsListed(c: Comment, cfg: Config, target: Target, isAA: bool, k: nat)
    requires ThumbnailShown(cfg, target) && !cfg.hideImgUrl
    requires k < |ImgUrls(StripAnchors(c.text))|
    ensures Contains(CommentDom(c, cfg, target, isAA), ImageTag(ImgUrls(StripAnchors(c.text))[k]))
    ensures StartsWith(FixScheme(ImgUrls(StripAnchors(c.text))[k]), "http")
  {
    var urls := ImgUrls(StripAnchors(c.text));
    var pre := Framed(c, cfg, isAA) + ThumbnailOpen;
    var tags := ImageTags(urls);
    ImageTagsHold(urls, k);
    ContainsInner(pre, tags, ThumbnailClose + Closing, ImageTag(urls[k]));
    ConcatAssoc(pre + tags, ThumbnailClose, Closing);
    ThumbnailSourcesHttp(StripAnchors(c.text));
  }

  // ---------------------------------------------------------------------------
  // the fragments of a batch (`sendDom` for the overlay, `sendDomForChatWindow`)

  /** A relative icon path (one starting with `.`) is made relative to the chat window's page. */
  function RewriteImgUrl(c: Comment): (r: Comment)
    ensures r == c.(imgUrl := r.imgUrl)
    ensures EndsWith(r.imgUrl, c.imgUrl)
    ensures r.imgUrl == c.imgUrl <==> !StartsWith(c.imgUrl, ".")
  {
    if StartsWith(c.imgUrl, ".") then
      assert ("../../public/" + c.imgUrl)[|"../../public/" + c.imgUrl| - |c.imgUrl|..] == c.imgUrl;
      c.(imgUrl := "../../public/" + c.imgUrl)
    else c
  }

  /** The fragment of one comment of a batch; the AA flag is judged on the comment as received. */
  function ShownDom(c: Comment, cfg: Config, target: Target, isAA: Comment -> bool): (r: string) {
    CommentDom(if target == Chat then RewriteImgUrl(c) else c, cfg, target, isAA(c))
  }

  /** The fragments of a batch, in order. */
  function Doms(list: seq<Comment>, cfg: Config, target: Target, isAA: Comment -> bool): (doms: seq<string>)
    ensures |doms| == |list|
    ensures forall i :: 0 <= i < |list| ==> doms[i] == ShownDom(list[i], cfg, target, isAA)
  {
    if list == [] then []
    else
      var rest := Doms(list[1..], cfg, target, isAA);
      var r := [ShownDom(list[0], cfg, target, isAA)] + rest;
      assert forall i :: 0 < i < |list| ==> r[i] == rest[i - 1] && list[1..][i - 1] == list[i];
      r
  }

  /** The fragments joined by a newline, as a batch is sent to a window. */
  function Fragment(list: seq<Comment>, cfg: Config, target: Target, isAA: Comment -> bool): (r: string) {
    Join(Doms(list, cfg, target, isAA), "\n")
  }

  /** The joined text of a batch holds the fragment of every comment of the batch. */
  lemma FragmentHolds(list: seq<Comment>, cfg: Config, target: Target, isAA: Comment -> bool, i: nat)
    requires i < |list|
    ensures Contains(Fragment(list, cfg, target, isAA), ShownDom(list[i], cfg, target, isAA))
  {
    JoinHolds(Doms(list, cfg, target, isAA), "\n", i);
  }

  /** A batch of one comment is that comment's fragment. */
  lemma FragmentSingle(c: Comment, cfg: Config, target: Target, isAA: Comment -> bool)
    ensures Fragment([c], cfg, target, isAA) == ShownDom(c, cfg, target, isAA)
  {
  }

  // ---------------------------------------------------------------------------
  // the translation window

  const TranslationError: string := "<div>翻訳でエラー</div>"

  const TranslatedOpen: string := "\n  <div class=\"res\">\n    "
  const OriginalOpen: string := "\n  </div>\n  <hr style=\"margin: 1px;border-top: 1px solid black\" />\n  <span class=\"res-org\">\n    "
  const OriginalClose: string := "\n  </span>\n"

  function TranslateBody(translated: string, text: string): (r: string) {
    TranslatedOpen + translated + OriginalOpen + text + OriginalClose
  }

  /** In the translation window the icon alone does not ask for a line break. */
  predicate TranslateHeaderShown(cfg: Config, c: Comment) {
    ShowsNumber(cfg, c) || ShowsName(cfg, c) || ShowsDate(cfg, c)
  }

  /** The fragment `createTranslateDom` builds: the translation above the original text. */
  function TranslateDom(c: Comment, cfg: Config, translated: string): (r: string) {
    var h := HeaderRow(cfg, c);
    (if TranslateHeaderShown(cfg, c) then h + LineBreak else h) + TranslateBody(translated, c.text) + Closing
  }

  /** The header row of `createTranslateDom`, whose flag ignores the icon. */
  method TranslateHeaderDom(c: Comment, cfg: Config) returns (dom: string, isResNameShowed: bool)
    ensures dom == HeaderRow(cfg, c)
    ensures isResNameShowed == TranslateHeaderShown(cfg, c)
  {
    dom := ListItemOpen;
    isResNameShowed := false;
    if cfg.showIcon {
      dom := dom + IconBlock(c.imgUrl);
    }
    dom := dom + ContentOpen;
    if cfg.showNumber && c.HasNumber() {
      dom := dom + NumberSpan(c.number.value);
      isResNameShowed := true;
    }
    if cfg.showName && c.HasName() {
      dom := dom + NameSpan(c.name);
      isResNameShowed := true;
    }
    if cfg.showTime && c.HasDate() {
      dom := dom + DateSpan(c.date.value);
      isResNameShowed := true;
    }
  }

  /** `createTranslateDom`, step by step. */
  method CreateTranslateDom(c: Comment, cfg: Config, translated: string) returns (dom: string)
    ensures dom == TranslateDom(c, cfg, translated)
  {
    var isResNameShowed;
    dom, isResNameShowed := TranslateHeaderDom(c, cfg);
    if isResNameShowed {
      dom := dom + LineBreak;
    }
    dom := dom + TranslateBody(translated, c.text);
    dom := dom + Closing;
  }

  /**
   * The translation window breaks after the header exactly when a number,
   * a name or a time is shown; unlike the chat window, an icon alone gives
   * no break, whatever the line-break setting.
   */
  lemma TranslateBreakRule(c: Comment, cfg: Config, translated: string)
    ensures StartsWith(TranslateDom(c, cfg, translated), HeaderRow(cfg, c) + LineBreak)
        <==> TranslateHeaderShown(cfg, c)
  {
    var h := HeaderRow(cfg, c);
    var body := TranslateBody(translated, c.text);
    var dom := TranslateDom(c, cfg, translated);
    if TranslateHeaderShown(cfg, c) {
      StartsWithConcat(h + LineBreak, body + Closing);
      ConcatAssoc(h + LineBreak, body, Closing);
    } else {
      ConcatAssoc(h, body, Closing);
      assert dom[|h|] == body[0] == '\n';
      assert (h + LineBreak)[|h|] == '<';
    }
  }

  /** The translation window shows both the translation and the original text. */
  lemma TranslateDomHolds(c: Comment, cfg: Config, translated: string)
    ensures Contains(TranslateDom(c, cfg, translated), translated)
    ensures Contains(TranslateDom(c, cfg, translated), c.text)
  {
    var h := HeaderRow(cfg, c);
    var hb := if TranslateHeaderShown(cfg, c) then h + LineBreak else h;
    var body := TranslateBody(translated, c.text);
    ContainsSelf(translated);
    ContainsAppendLeft(TranslatedOpen, translated, translated);
    ContainsAppendRight(TranslatedOpen + translated, OriginalOpen, translated);
    ContainsAppendRight(TranslatedOpen + translated + OriginalOpen, c.text, translated);
    ContainsAppendRight(TranslatedOpen + translated + OriginalOpen + c.text, OriginalClose, translated);
    ContainsSelf(c.text);
    ContainsAppendLeft(TranslatedOpen + translated + OriginalOpen, c.text, c.text);
    ContainsAppendRight(TranslatedOpen + translated + OriginalOpen + c.text, OriginalClose, c.text);
    ContainsAppendLeft(hb, body, translated);
    ContainsAppendLeft(hb, body, c.text);
    ContainsAppendRight(hb + body, Closing, translated);
    ContainsAppendRight(hb + body, Closing, c.text);
  }

  /**
   * The text sent to the translator: anchors and image tags are removed,
   * then URLs, then surrounding white space. No URL is left in it.
   */
  function TranslationSource(text: string): (r: string)
    ensures NoUrl(r)
    ensures r == [] || (!IsJsWhiteSpace(r[0]) && !IsJsWhiteSpace(r[|r| - 1]))
  {
    var u := ReplaceAll(ReplaceLazy(StripAnchors(text), "<img ", ">", ""), "<\\img>", "");
    RemoveUrlsClean(u);
    TrimKeepsNoUrl(RemoveUrls(u));
    Trim(RemoveUrls(u))
  }

  /** Plain text — no tag and no URL — is only trimmed before it is translated. */
  lemma TranslationSourcePlain(text: string)
    requires '<' !in text && !Contains(text, "ttp")
    ensures TranslationSource(text) == Trim(text)
  {
    NoFirstCharNoContains(text, "<a ");
    ReplaceLazyAbsent(text, "<a ", ">", "");
    NoFirstCharNoContains(text, "<\\a>");
    ReplaceAllAbsent(text, "<\\a>", "");
    NoFirstCharNoContains(text, "<img ");
    ReplaceLazyAbsent(text, "<img ", ">", "");
    NoFirstCharNoContains(text, "<\\img>");
    ReplaceAllAbsent(text, "<\\img>", "");
    RemoveUrlsWithoutTtp(text);
  }

  /**
   * What the translation window receives for a comment, given the outcome
   * of the translator (`None` when it failed): an error notice on failure,
   * nothing for an empty translation, otherwise the translated fragment
   * (the translation escaped, the icon path rewritten, the text prepared).
   */
  function TranslateWindowDom(c: Comment, cfg: Config, outcome: Option<string>, escape: string -> string): (r: Option<string>)
    ensures outcome.None? ==> r == Some(TranslationError)
    ensures r.None? <==> outcome == Some("")
    ensures outcome.Some? && outcome.value != "" ==>
      r.Some? && Contains(r.value, escape(outcome.value)) && Contains(r.value, TranslationSource(c.text))
  {
    match outcome
    case None => Some(TranslationError)
    case Some(t) =>
      if t == "" then None
      else
        var m := RewriteImgUrl(c).(text := TranslationSource(c.text));
        TranslateDomHolds(m, cfg, escape(t));
        Some(TranslateDom(m, cfg, escape(t)))
  }

  // ---------------------------------------------------------------------------
  // the speech synthesiser's text (`sendDom`, reading the last comment)

  /** Tags are removed (a line break becomes a newline), entities decoded, newlines optionally flattened. */
  function SpeechBody(text: string, cfg: Config, unescape: string -> string): (r: string) {
    var t1 := ReplaceLazy(text, "<br", ">", "\n");
    var t2 := ReplaceLazy(t1, "<img", "/>", "");
    var t3 := ReplaceAll(ReplaceLazy(t2, "<a ", ">", ""), "</a>", "");
    var t4 := unescape(t3);
    if cfg.yomikoReplaceNewline then ReplaceAll(ReplaceAll(t4, "\r\n", " "), "\n", " ") else t4
  }

  const TwitchAnnouncement: string := "twitchからカキコ\n"

  function ResNumberAnnouncement(number: string): (r: string) {
    "レス" + number + "\n"
  }

  /** What is read for a comment: its number when asked for, the platform for Twitch, then the text. */
  function SpokenText(c: Comment, cfg: Config, unescape: string -> string): (r: string) {
    var t := SpeechBody(c.text, cfg, unescape);
    var t' := if c.from == Some("twitch") then TwitchAnnouncement + t else t;
    if cfg.yomikoReadResNumber && c.HasNumber() then ResNumberAnnouncement(c.number.value) + t' else t'
  }

  /**
   * What is read for a batch: nothing when reading is off or the batch is
   * empty (the code fails on the missing last comment and gives up), the
   * configured word for ASCII art in AA mode, otherwise the spoken text of
   * the last comment.
   */
  function Speech(list: seq<Comment>, cfg: Config, isAA: Comment -> bool, unescape: string -> string): (r: Option<string>)
    ensures r.None? <==> cfg.typeYomiko == "none" || list == []
    ensures r.Some? && isAA(list[|list| - 1]) && cfg.aamode.enable ==> r.value == cfg.aamode.speakWord
    ensures r.Some? && !(isAA(list[|list| - 1]) && cfg.aamode.enable) ==> r.value == SpokenText(list[|list| - 1], cfg, unescape)
  {
    if cfg.typeYomiko == "none" || list == [] then None
    else
      var last := list[|list| - 1];
      if isAA(last) && cfg.aamode.enable then Some(cfg.aamode.speakWord) else Some(SpokenText(last, cfg, unescape))
  }

  /** With newline flattening on, the text after the announcements holds no newline. */
  lemma SpeechFlattened(text: string, cfg: Config, unescape: string -> string)
    requires cfg.yomikoReplaceNewline
    ensures '\n' !in SpeechBody(text, cfg, unescape)
  {
    var t1 := ReplaceLazy(text, "<br", ">", "\n");
    var t2 := ReplaceLazy(t1, "<img", "/>", "");
    var t3 := ReplaceAll(ReplaceLazy(t2, "<a ", ">", ""), "</a>", "");
    assert "\n" == ['\n'];
    ReplaceAllRemoves(ReplaceAll(unescape(t3), "\r\n", " "), '\n', " ");
  }

  /** The response number is announced before the platform, both before the text. */
  lemma SpeechAnnouncementOrder(c: Comment, cfg: Config, unescape: string -> string)
    requires cfg.yomikoReadResNumber && c.HasNumber() && c.from == Some("twitch")
    ensures SpokenText(c, cfg, unescape)
         == ResNumberAnnouncement(c.number.value) + TwitchAnnouncement + SpeechBody(c.text, cfg, unescape)
  {
    ConcatAssoc(ResNumberAnnouncement(c.number.value), TwitchAnnouncement, SpeechBody(c.text, cfg, unescape));
  }

  /** Text without tags, read without flattening, is read exactly as decoded. */
  lemma SpeechPlain(text: string, cfg: Config, unescape: string -> string)
    requires '<' !in text && !cfg.yomikoReplaceNewline
    ensures SpeechBody(text, cfg, unescape) == unescape(text)
  {
    NoFirstCharNoContains(text, "<br");
    ReplaceLazyAbsent(text, "<br", ">", "\n");
    NoFirstCharNoContains(text, "<img");
    ReplaceLazyAbsent(text, "<img", "/>", "");
    NoFirstCharNoContains(text, "<a ");
    ReplaceLazyAbsent(text, "<a ", ">", "");
    NoFirstCharNoContains(text, "</a>");
    ReplaceAllAbsent(text, "</a>", "");
  }
}
