/** The client's data records and their text renderings (src/model.rs). */
module Model {

  /** Identity of a command's `action` function pointer. Handlers are opaque:
      the dispatcher records which one it calls and with what arguments. */
  type HandlerId = nat

  datatype Command = Command(
    name: string,
    action: HandlerId,
    argDescriptions: seq<string>,
    shortDescription: string)

  /** The lines `print_help` writes for `c`. */
  function HelpText(c: Command): seq<string> {
    [c.shortDescription] + c.argDescriptions
  }

  /** `Command::print_help`: the short description, then every argument
      description in order, one line each. */
  method PrintHelp(c: Command) returns (lines: seq<string>)
    ensures |lines| == 1 + |c.argDescriptions|
    ensures lines[0] == c.shortDescription
    ensures forall k :: 0 <= k < |c.argDescriptions| ==> lines[k + 1] == c.argDescriptions[k]
    ensures lines == HelpText(c)
  {
    lines := [c.shortDescription];
    for k := 0 to |c.argDescriptions|
      invariant lines == [c.shortDescription] + c.argDescriptions[..k]
    {
      lines := lines + [c.argDescriptions[k]];
    }
    assert c.argDescriptions[..|c.argDescriptions|] == c.argDescriptions;
  }

  datatype LoginResult = LoginResult(sessionId: string, username: string, roles: seq<string>)

  /** `LoginResult::new`: every field empty. */
  function NewLoginResult(): (r: LoginResult)
    ensures r.sessionId == [] && r.username == [] && r.roles == []
  {
    LoginResult("", "", [])
  }

  /** Why a login failed. */
  datatype Reason = InvalidCredentials | Other

  datatype Song = Song(title: string, duration: string)

  /** An `i32`. */
  newtype I32 = x: int | -0x8000_0000 <= x < 0x8000_0000

  /** A sound carrier; its price is an `f32` in the source. */
  datatype Carrier = Carrier(name: string, amount: I32, price: real)

  datatype Product = Product(
    id: string,
    name: string,
    artistName: string,
    releaseYear: string,
    labelName: string,
    duration: string,
    genre: string,
    songs: seq<Song>,
    carriers: seq<Carrier>)

  /** `Display for Song`: the title, one space, the duration. */
  function SongDisplay(s: Song): (r: string)
    ensures |r| == |s.title| + 1 + |s.duration|
    ensures r[..|s.title|] == s.title
    ensures r[|s.title|] == ' '
    ensures r[|s.title| + 1..] == s.duration
  {
    s.title + " " + s.duration
  }

  /** Each item rendered by `show` and terminated by a newline, in order. */
  function Lines<T>(items: seq<T>, show: T -> string): string {
    if items == [] then [] else show(items[0]) + "\n" + Lines(items[1..], show)
  }

  /** `Product::fmt` builds its songs and carriers sections with one
      `push_str(format!("{}\n", x))` per element. `showCarrier` stands for
      `Display for Carrier`, whose `f32` formatting is not modelled. */
  method ProductSections(p: Product, showCarrier: Carrier -> string)
    returns (songsString: string, carriersString: string)
    ensures songsString == Lines(p.songs, SongDisplay)
    ensures carriersString == Lines(p.carriers, showCarrier)
  {
    songsString := "";
    for k := 0 to |p.songs|
      invariant songsString == Lines(p.songs[..k], SongDisplay)
    {
      LinesAppend(p.songs[..k], p.songs[k], SongDisplay);
      assert p.songs[..k + 1] == p.songs[..k] + [p.songs[k]];
      songsString := songsString + (SongDisplay(p.songs[k]) + "\n");
    }
    assert p.songs[..|p.songs|] == p.songs;

    carriersString := "";
    for k := 0 to |p.carriers|
      invariant carriersString == Lines(p.carriers[..k], showCarrier)
    {
      LinesAppend(p.carriers[..k], p.carriers[k], showCarrier);
      assert p.carriers[..k + 1] == p.carriers[..k] + [p.carriers[k]];
      carriersString := carriersString + (showCarrier(p.carriers[k]) + "\n");
    }
    assert p.carriers[..|p.carriers|] == p.carriers;
  }

  /** Appending an item appends its line at the end. */
  lemma {:induction false} LinesAppend<T>(items: seq<T>, x: T, show: T -> string)
    ensures Lines(items + [x], show) == Lines(items, show) + (show(x) + "\n")
  {
    if items == [] {
      assert items + [x] == [x];
    } else {
      assert (items + [x])[1..] == items[1..] + [x];
      LinesAppend(items[1..], x, show);
    }
  }

  // ---------------------------------------------------------------------
  // One line per element

  /** The newline-terminated lines of `s` (a last line without a newline
      is kept too). */
  function SplitLines(s: string): seq<string>
    decreases |s|
  {
    if s == [] then []
    else
      var n := LineLen(s);
      [s[..n]] + (if n < |s| then SplitLines(s[n + 1..]) else [])
  }

  /** Length of the text before the first newline of `s`. */
  function LineLen(s: string): (n: nat)
    ensures n <= |s|
    ensures n < |s| ==> s[n] == '\n'
  {
    if s == [] || s[0] == '\n' then 0 else 1 + LineLen(s[1..])
  }

  lemma {:induction false} LineLenOf(w: string, rest: string)
    requires '\n' !in w
    ensures LineLen(w + "\n" + rest) == |w|
  {
    if w != [] {
      assert (w + "\n" + rest)[1..] == w[1..] + "\n" + rest;
      LineLenOf(w[1..], rest);
    }
  }

  /** `show` applied to every item, in order. */
  function MapShow<T>(items: seq<T>, show: T -> string): (r: seq<string>)
    ensures |r| == |items|
  {
    if items == [] then [] else [show(items[0])] + MapShow(items[1..], show)
  }

  /** When no rendered item contains a newline, the section reads back as
      exactly one line per item, in list order. */
  lemma {:induction false} LinesSplitBack<T>(items: seq<T>, show: T -> string)
    requires forall k :: 0 <= k < |items| ==> '\n' !in show(items[k])
    ensures SplitLines(Lines(items, show)) == MapShow(items, show)
  {
    if items != [] {
      var w := show(items[0]);
      var rest := Lines(items[1..], show);
      LineLenOf(w, rest);
      var s := w + "\n" + rest;
      assert s[..|w|] == w;
      assert s[|w| + 1..] == rest;
      LinesSplitBack(items[1..], show);
    }
  }

  /** The songs section of a product: one line per song, in list order,
      each the song's title and duration. */
  lemma SongsOnePerLine(songs: seq<Song>)
    requires forall k :: 0 <= k < |songs| ==> '\n' !in songs[k].title && '\n' !in songs[k].duration
    ensures |SplitLines(Lines(songs, SongDisplay))| == |songs|
    ensures forall k :: 0 <= k < |songs| ==> SplitLines(Lines(songs, SongDisplay))[k] == SongDisplay(songs[k])
  {
    forall k | 0 <= k < |songs| ensures '\n' !in SongDisplay(songs[k]) {
      var s := songs[k];
      assert SongDisplay(s) == s.title + " " + s.duration;
    }
    LinesSplitBack(songs, SongDisplay);
    MapShowAt(songs, SongDisplay);
  }

  lemma {:induction false} MapShowAt<T>(items: seq<T>, show: T -> string)
    ensures forall k :: 0 <= k < |items| ==> MapShow(items, show)[k] == show(items[k])
  {
    if items != [] {
      MapShowAt(items[1..], show);
    }
  }
}
