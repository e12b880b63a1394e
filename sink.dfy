// The pixel sink every renderer in the repository writes into: the IS31FL3731
// "Scroll pHAT HD" matrix of the CLUE boards and the Pico Scroll pack. The
// hardware is not modelled; what the core does to it is recorded in a ghost
// log of events, in the order the core issued them.
module Sink {

  /** One call the core makes on the display. */
  datatype Event =
    | Pixel(x: int, y: int, level: int)   // display.pixel / scroll.set_pixel
    | Fill(level: int)                    // display.fill
    | Frame(index: int, show: bool)       // display.frame(index, show=...)
    | Clear                               // scroll.clear
    | Text(text: string, level: int, offset: int)  // scroll.show_text
    | Show                                // scroll.show

  /** Concatenation regroups; the loops that append to a log or a list use it. */
  lemma AppendAssoc<T>(a: seq<T>, b: seq<T>, c: seq<T>)
    ensures (a + b) + c == a + (b + c)
  {
  }

  class Display {
    const width: int
    const height: int
    ghost var log: seq<Event>

    constructor (width: int, height: int)
      ensures this.width == width && this.height == height
      ensures log == []
    {
      this.width := width;
      this.height := height;
      log := [];
    }

    method SetPixel(x: int, y: int, level: int)
      modifies this
      ensures log == old(log) + [Pixel(x, y, level)]
    {
      log := log + [Pixel(x, y, level)];
    }

    method FillWith(level: int)
      modifies this
      ensures log == old(log) + [Fill(level)]
    {
      log := log + [Fill(level)];
    }

    method SelectFrame(index: int, show: bool)
      modifies this
      ensures log == old(log) + [Frame(index, show)]
    {
      log := log + [Frame(index, show)];
    }

    method ClearAll()
      modifies this
      ensures log == old(log) + [Clear]
    {
      log := log + [Clear];
    }

    method ShowText(text: string, level: int, offset: int)
      modifies this
      ensures log == old(log) + [Text(text, level, offset)]
    {
      log := log + [Text(text, level, offset)];
    }

    method ShowBuffer()
      modifies this
      ensures log == old(log) + [Show]
    {
      log := log + [Show];
    }
  }
}
