/** The font registry: the text brushes built from loaded fonts, in load order, with an index from
    font name to the id of the latest font loaded under that name. */
module Text {
  import opened Common

  /** A text brush built from a parsed font. Building it needs the GPU device and surface
      configuration, which are not part of this model; only the font bytes are kept. */
  datatype Brush = Brush(fontBytes: seq<bv8>)

  datatype ErrorKind = InvalidInput

  datatype Result<T> = Ok(value: T) | Err(error: ErrorKind)

  /** The registry's two collections, as a value. */
  datatype Fonts = Fonts(fonts: seq<Brush>, fontIdx: map<string, nat>)

  /** `initialize_font`, with the outcome of parsing the font bytes given as `parsed`: a font that
      does not parse is an `InvalidInput` error and changes nothing; otherwise its brush is
      appended and the name points at its position. */
  function Initialize(f: Fonts, name: string, parsed: Option<Brush>): (Fonts, Result<nat>)
  {
    match parsed
    case None => (f, Err(InvalidInput))
    case Some(brush) =>
      var id := |f.fonts|;
      (Fonts(f.fonts + [brush], f.fontIdx[name := id]), Ok(id))
  }

  /** `get_font_id`. */
  function FontId(f: Fonts, name: string): Option<nat>
  {
    if name in f.fontIdx then Some(f.fontIdx[name]) else None
  }

  /** Every name leads to a loaded font. */
  predicate Consistent(f: Fonts)
  {
    forall n :: n in f.fontIdx ==> f.fontIdx[n] < |f.fonts|
  }

  class FontRegistry {
    var fonts: seq<Brush>
    var fontIdx: map<string, nat>

    function State(): Fonts
      reads this
    {
      Fonts(fonts, fontIdx)
    }

    /** `FontRegistry::new`: no fonts, no names. */
    constructor()
      ensures State() == Fonts([], map[])
    {
      fonts := [];
      fontIdx := map[];
    }

    /** `initialize_font`. The id must fit in a `u32`: the source asserts it does, and panics
        otherwise. */
    method InitializeFont(name: string, parsed: Option<Brush>) returns (r: Result<nat>)
      requires |fonts| < U32
      modifies this
      ensures (State(), r) == Initialize(old(State()), name, parsed)
    {
      if parsed.None? {
        return Err(InvalidInput);
      }
      fonts := fonts + [parsed.value];
      var id := |fonts| - 1;
      fontIdx := fontIdx[name := id];
      return Ok(id);
    }

    function GetFontId(name: string): Option<nat>
      reads this
    {
      FontId(State(), name)
    }

    /** `get_font_mut`: an id past the end panics. */
    function GetFont(id: nat): Brush
      reads this
      requires id < |fonts|
    {
      fonts[id]
    }
  }

  /** A font that does not parse is reported as invalid input and leaves the registry as it was. A
      font that parses is appended, its id is the previous number of fonts, its name now looks up
      that id (even if the name was loaded before), every other name looks up as before, and every
      earlier font keeps its position. */
  lemma InitializeEffect(f: Fonts, name: string, parsed: Option<Brush>, other: string)
    ensures var (f', r) := Initialize(f, name, parsed);
      && (parsed.None? <==> r == Err(InvalidInput))
      && (parsed.None? ==> f' == f)
      && (parsed.Some? ==>
            && r == Ok(|f.fonts|)
            && f'.fonts[..|f.fonts|] == f.fonts
            && |f'.fonts| == |f.fonts| + 1
            && f'.fonts[|f.fonts|] == parsed.value
            && FontId(f', name) == Some(|f.fonts|)
            && (other != name ==> FontId(f', other) == FontId(f, other)))
  {
    if parsed.Some? {
      var (f', r) := Initialize(f, name, parsed);
      assert f'.fonts[..|f.fonts|] == f.fonts;
    }
  }

  /** Loading keeps every name leading to a loaded font, so `get_font_mut` with an id from
      `get_font_id` never panics. */
  lemma InitializeKeepsConsistent(f: Fonts, name: string, parsed: Option<Brush>, n: string)
    requires Consistent(f)
    ensures Consistent(Initialize(f, name, parsed).0)
    ensures var f' := Initialize(f, name, parsed).0;
      FontId(f', n).Some? ==> FontId(f', n).value < |f'.fonts|
  {
  }

  /** Loading two fonts under one name: the name looks up the second, the first stays loaded. */
  lemma ReloadRepoints(f: Fonts, name: string, a: Brush, b: Brush)
    ensures var f1 := Initialize(f, name, Some(a)).0;
      var f2 := Initialize(f1, name, Some(b)).0;
      && FontId(f2, name) == Some(|f.fonts| + 1)
      && f2.fonts[|f.fonts|] == a && f2.fonts[|f.fonts| + 1] == b
  {
  }
}
