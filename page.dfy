/** The two front ends whose scripts share this logic, and the glyphs each
    script spells out. The script of the chat front end holds each glyph as
    the characters its UTF-8 bytes stand for in the Mac OS Roman encoding
    (`‚úì` for a check mark), and the model keeps them as they are written. */
module Page {

  /** `org.doomsai.chat` or `org.doomsai.ollama_chat`. */
  datatype Variant = Chat | Ollama

  /** The check mark of a completed or final step. */
  function CheckMark(v: Variant): string {
    match v
    case Chat => "\U{201A}úì"
    case Ollama => "\U{2713}"
  }

  /** The antenna before the download speed. */
  function Antenna(v: Variant): string {
    match v
    case Chat => "\U{F8FF}üì°"
    case Ollama => "\U{1F4E1}"
  }

  /** The arrow of a collapsed thinking panel. */
  function Collapsed(v: Variant): string {
    match v
    case Chat => "\U{201A}ñ\U{2202}"
    case Ollama => "\U{25B6}"
  }

  /** The arrow of an expanded thinking panel. */
  function Expanded(v: Variant): string {
    match v
    case Chat => "\U{201A}ñº"
    case Ollama => "\U{25BC}"
  }
}
