/**
 * The records that flow through the comment pipeline: a comment, the part of
 * the application configuration that the pipeline reads, and an entry of a
 * board's thread list.
 */
module Comments {
  import opened Wrappers

  /**
   * A comment (`UserComment`, together with the `from` tag that the adapters
   * set). Optional fields are `None` when the record does not have them.
   */
  datatype Comment = Comment(
    number: Option<string>,
    name: string,
    date: Option<string>,
    text: string,
    imgUrl: string,
    threadTitle: Option<string>,
    from: Option<string>)
  {
    /** `!!message.number`: present and not empty. */
    predicate HasNumber() {
      number.Some? && number.value != ""
    }

    /** `!!message.date` */
    predicate HasDate() {
      date.Some? && date.value != ""
    }

    /** `!!message.name` */
    predicate HasName() {
      name != ""
    }
  }

  datatype AaMode = AaMode(enable: bool, speakWord: string)

  datatype TranslateConfig = TranslateConfig(enable: bool, targetLang: string)

  /** The configuration fields that the thread poller, the schedulers and the renderer read. */
  datatype Config = Config(
    url: string,
    dispSort: bool,
    newLine: bool,
    showIcon: bool,
    showNumber: bool,
    showName: bool,
    showTime: bool,
    thumbnail: int,
    hideImgUrl: bool,
    aamode: AaMode,
    typeYomiko: string,
    yomikoReplaceNewline: bool,
    yomikoReadResNumber: bool,
    commentProcessType: int,
    translate: TranslateConfig,
    moveThread: bool,
    notifyThreadResLimit: int,
    dispType: int,
    initMessage: string,
    emoteAnimation: bool,
    emoteSize: int)

  /** An entry of a board's thread list. */
  datatype ThreadInfo = ThreadInfo(url: string, name: string, resNum: int)

  /** A message the application itself posts into the comment stream. */
  function SystemComment(text: string): (c: Comment)
    ensures c.from == Some("system") && c.text == text && !c.HasNumber()
  {
    Comment(None, "unacastより", None, text, "./img/unacast.png", None, Some("system"))
  }
}
