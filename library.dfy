/**
 * The card library: games, card types, card images and their print
 * quantities, kept under a `data` directory. The directory tree and the
 * JSON files are the state of `GameManager`; every method reads and
 * rewrites them as the library does.
 */
module Library {
  import opened Wrappers
  import opened Decimal
  import opened Names
  import opened Paths

  /** One entry of a game's `card_types` configuration. */
  datatype TypeEntry = TypeEntry(name: string, widthMm: Mm, heightMm: Mm, folder: string)

  /** One card as `get_cards_by_type` reports it. */
  datatype CardInfo = CardInfo(name: string, filename: string, path: FilePath, count: int)

  /** The card types of a game, by sanitised type name. */
  type CardTypes = map<string, TypeEntry>

  /** A `cards.json`: print quantity by file name. */
  type Metadata = map<string, int>

  const BackFile := "back.png"

  const InvalidGame := "Nom de jeu invalide."
  const GameExists := "Ce jeu existe déjà."
  const TypeExists := "Ce type de carte existe déjà."
  const NoTypeFolder := "Le dossier du type de carte n'existe pas."
  const CardDeleted := "Carte supprimée."
  const FileMissing := "Fichier introuvable."
  const CardMissing := "Carte introuvable."
  const TargetMissing := "Nouveau type de carte introuvable."
  const NameTaken := "Une carte porte déjà ce nom dans la destination."
  const CardUpdated := "Carte mise à jour avec succès."
  const NoBackFolder := "Dossier du type introuvable."
  const BackSaved := "Dos de carte sauvegardé !"

  /** The name given to a card saved without one: `carte_{n+1:03d}` for `n` existing .png files. */
  function AutoName(pngs: nat): string
  {
    "carte_" + ZeroPad(Digits(pngs + 1), 3)
  }

  /** The name `save_card` stores a card under. */
  function SavedName(cardName: Option<string>, pngs: nat): string
  {
    if cardName.None? || cardName.value == "" then AutoName(pngs) else cardName.value
  }

  function FileName(name: string): (f: string)
    ensures EndsWith(f, ".png")
  {
    Sanitize(name) + ".png"
  }

  /** The value `new` if it was given and is not empty, `current` otherwise. */
  function OrElse(given: Option<string>, current: string): string
  {
    if given.Some? && given.value != "" then given.value else current
  }

  // ---------------------------------------------------------------------------
  // Listing a card type's folder.


  /** The card the listing shows for file `f`, if `f` is listed with metadata `meta`. */
  function Card(game: string, folder: string, f: string, meta: Metadata): CardInfo
  {
    CardInfo(Stem(f), f, FilePath(game, folder, f), if f in meta then meta[f] else 1)
  }

  /** The cards of the listed names, in their order, leaving out the back image. */
  function Entries(game: string, folder: string, names: seq<string>, meta: Metadata): seq<CardInfo>
    decreases |names|
  {
    if names == [] then []
    else
      var f := names[|names| - 1];
      Entries(game, folder, names[..|names| - 1], meta) + (if f == BackFile then [] else [Card(game, folder, f, meta)])
  }

  /** `get_cards_by_type` on a folder holding `files` with metadata `meta`. */
  ghost function ListingOf(game: string, folder: string, files: set<string>, meta: Metadata): seq<CardInfo>
  {
    Entries(game, folder, Sorted(Pngs(files)), meta)
  }

  /** Each listed entry comes from one of the names, and is not the back image. */
  lemma {:induction false} EntriesFrom(game: string, folder: string, names: seq<string>, meta: Metadata)
    ensures forall i :: 0 <= i < |Entries(game, folder, names, meta)| ==>
      var e := Entries(game, folder, names, meta)[i];
      e.filename in names && e.filename != BackFile && e == Card(game, folder, e.filename, meta)
    decreases |names|
  {
    if names != [] {
      var pre := names[..|names| - 1];
      EntriesFrom(game, folder, pre, meta);
      var last := names[|names| - 1];
      var es := Entries(game, folder, names, meta);
      var es0 := Entries(game, folder, pre, meta);
      assert es == es0 + (if last == BackFile then [] else [Card(game, folder, last, meta)]);
      forall i | 0 <= i < |es|
        ensures es[i].filename in names && es[i].filename != BackFile && es[i] == Card(game, folder, es[i].filename, meta)
      {
        if i < |es0| {
          assert es[i] == es0[i];
          assert es0[i].filename in pre;
          assert es[i].filename in names;
        } else {
          assert es[i] == Card(game, folder, last, meta);
        }
      }
    }
  }

  /** Every name other than the back image gets an entry. */
  lemma {:induction false} EntriesCover(game: string, folder: string, names: seq<string>, meta: Metadata)
    ensures forall f :: f in names && f != BackFile ==> Named(Entries(game, folder, names, meta), f)
    decreases |names|
  {
    if names != [] {
      var pre, last := names[..|names| - 1], names[|names| - 1];
      EntriesCover(game, folder, pre, meta);
      var es := Entries(game, folder, names, meta);
      var es0 := Entries(game, folder, pre, meta);
      forall g | g in names && g != BackFile ensures Named(es, g) {
        if g in pre {
          var i :| 0 <= i < |es0| && es0[i].filename == g;
          assert es[i] == es0[i];
        } else {
          assert g == last;
          assert es[|es| - 1].filename == g;
        }
      }
    }
  }

  lemma EntriesSnoc(game: string, folder: string, names: seq<string>, f: string, meta: Metadata)
    ensures Entries(game, folder, names + [f], meta)
         == Entries(game, folder, names, meta) + (if f == BackFile then [] else [Card(game, folder, f, meta)])
  {
    assert (names + [f])[..|names|] == names;
  }

  /** Some entry of `l` is for the file `f`. */
  predicate Named(l: seq<CardInfo>, f: string)
  {
    exists i :: 0 <= i < |l| && l[i].filename == f
  }

  /** `c` is one of the entries of `l`. */
  predicate Lists(l: seq<CardInfo>, c: CardInfo)
  {
    exists i :: 0 <= i < |l| && l[i] == c
  }

  /** The entries strictly increase by file name. */
  predicate InOrder(l: seq<CardInfo>)
  {
    forall i, j :: 0 <= i < j < |l| ==> Less(l[i].filename, l[j].filename)
  }

  /** The entries keep the order of the names. */
  lemma {:induction false} EntriesIncreasing(game: string, folder: string, names: seq<string>, meta: Metadata)
    requires Increasing(names)
    ensures InOrder(Entries(game, folder, names, meta))
    decreases |names|
  {
    if names != [] {
      var pre := names[..|names| - 1];
      assert Increasing(pre);
      EntriesIncreasing(game, folder, pre, meta);
      EntriesFrom(game, folder, pre, meta);
      var es := Entries(game, folder, names, meta);
      var es0 := Entries(game, folder, pre, meta);
      forall i, j | 0 <= i < j < |es| ensures Less(es[i].filename, es[j].filename) {
        assert es[i] == es0[i];
        if j < |es0| {
          assert es[j] == es0[j];
        } else {
          var k :| 0 <= k < |pre| && pre[k] == es0[i].filename;
          assert names[k] == pre[k];
        }
      }
    }
  }

  /**
   * The listing of a folder: every .png file of the folder except
   * "back.png", each once, in increasing code-point order of file name,
   * named by its stem, with the path of the file and the count recorded
   * for it (1 when there is none).
   */
  lemma ListingFacts(game: string, folder: string, files: set<string>, meta: Metadata)
    ensures forall i :: 0 <= i < |ListingOf(game, folder, files, meta)| ==>
      var c := ListingOf(game, folder, files, meta)[i];
      c.filename in files && EndsWith(c.filename, ".png") && c.filename != BackFile &&
      c == Card(game, folder, c.filename, meta)
    ensures forall f :: f in files && EndsWith(f, ".png") && f != BackFile ==> Named(ListingOf(game, folder, files, meta), f)
    ensures InOrder(ListingOf(game, folder, files, meta))
  {
    SortedIsOrdered(Pngs(files));
    EntriesFrom(game, folder, Sorted(Pngs(files)), meta);
    EntriesCover(game, folder, Sorted(Pngs(files)), meta);
    EntriesIncreasing(game, folder, Sorted(Pngs(files)), meta);
  }

  /** A listing has one entry per file name, so an entry is determined by its file name. */
  lemma ListedOnce(game: string, folder: string, files: set<string>, meta: Metadata, i: int, j: int)
    requires 0 <= i < |ListingOf(game, folder, files, meta)| && 0 <= j < |ListingOf(game, folder, files, meta)|
    ensures ListingOf(game, folder, files, meta)[i].filename == ListingOf(game, folder, files, meta)[j].filename ==> i == j
  {
    ListingFacts(game, folder, files, meta);
    var l := ListingOf(game, folder, files, meta);
    if i < j && l[i].filename == l[j].filename {
      LessIrreflexive(l[i].filename);
    }
    if j < i && l[i].filename == l[j].filename {
      LessIrreflexive(l[j].filename);
    }
  }


  /** Exactly the cards of the folder's .png files other than "back.png" are listed. */
  lemma ListedIff(game: string, folder: string, files: set<string>, meta: Metadata, c: CardInfo)
    ensures Lists(ListingOf(game, folder, files, meta), c) <==>
      c.filename in files && EndsWith(c.filename, ".png") && c.filename != BackFile &&
      c == Card(game, folder, c.filename, meta)
  {
    ListingFacts(game, folder, files, meta);
    var l := ListingOf(game, folder, files, meta);
    if c.filename in files && EndsWith(c.filename, ".png") && c.filename != BackFile && c == Card(game, folder, c.filename, meta) {
      var i :| 0 <= i < |l| && l[i].filename == c.filename;
      assert l[i] == c;
    }
  }

  /**
   * After a card file is written with quantity `n`, the listing shows it
   * with that quantity, and every other card as before.
   */
  lemma SavedCardListed(game: string, folder: string, files: set<string>, meta: Metadata, f: string, n: int)
    requires EndsWith(f, ".png") && f != BackFile
    ensures Lists(ListingOf(game, folder, files + {f}, meta[f := n]), CardInfo(Stem(f), f, FilePath(game, folder, f), n))
    ensures forall c: CardInfo :: c.filename != f ==>
      (Lists(ListingOf(game, folder, files + {f}, meta[f := n]), c) <==> Lists(ListingOf(game, folder, files, meta), c))
  {
    ListedIff(game, folder, files + {f}, meta[f := n], CardInfo(Stem(f), f, FilePath(game, folder, f), n));
    forall c: CardInfo | c.filename != f
      ensures Lists(ListingOf(game, folder, files + {f}, meta[f := n]), c) <==> Lists(ListingOf(game, folder, files, meta), c)
    {
      ListedIff(game, folder, files + {f}, meta[f := n], c);
      ListedIff(game, folder, files, meta, c);
    }
  }

  /**
   * A card named "back" (or anything that sanitises to it) is written as
   * back.png, over the type's back image, and the listing then skips it:
   * no listed card has that file, whatever quantity was stored.
   */
  lemma SavedBackCardHidden(game: string, folder: string, files: set<string>, meta: Metadata, name: string, n: int)
    requires Sanitize(name) == "back"
    ensures FileName(name) == BackFile
    ensures forall c: CardInfo :: Lists(ListingOf(game, folder, files + {BackFile}, meta[BackFile := n]), c) ==>
      c.filename != BackFile
  {
    forall c: CardInfo | Lists(ListingOf(game, folder, files + {BackFile}, meta[BackFile := n]), c)
      ensures c.filename != BackFile
    {
      ListedIff(game, folder, files + {BackFile}, meta[BackFile := n], c);
    }
  }

  /** The name "back" is clean, so `save_card` keeps it as it is. */
  lemma BackNameKept()
    ensures Sanitize("back") == "back" && FileName("back") == BackFile
  {
    CleanIsFixed("back");
  }

  /** After a card file and its metadata are removed, the listing shows every other card as before, and not that one. */
  lemma DeletedCardUnlisted(game: string, folder: string, files: set<string>, meta: Metadata, f: string)
    ensures forall c: CardInfo :: Lists(ListingOf(game, folder, files - {f}, meta - {f}), c) <==>
      Lists(ListingOf(game, folder, files, meta), c) && c.filename != f
  {
    forall c: CardInfo
      ensures Lists(ListingOf(game, folder, files - {f}, meta - {f}), c) <==> Lists(ListingOf(game, folder, files, meta), c) && c.filename != f
    {
      ListedIff(game, folder, files - {f}, meta - {f}, c);
      ListedIff(game, folder, files, meta, c);
    }
  }

  /**
   * A listed card's name, with ".png" appended, is its file name, so
   * `delete_card` and `update_card` find the card by the name the listing
   * gives it, except for a file named exactly ".png".
   */
  lemma ListedNameFindsFile(game: string, folder: string, files: set<string>, meta: Metadata, i: int)
    requires 0 <= i < |ListingOf(game, folder, files, meta)|
    ensures var c := ListingOf(game, folder, files, meta)[i];
      c.filename != ".png" ==> c.name + ".png" == c.filename && c.name + ".png" in files
  {
    ListingFacts(game, folder, files, meta);
  }

  /**
   * A name that sanitises to nothing (only characters the filter drops,
   * or only spaces) is saved as ".png"; the listing reports it under the
   * name ".png", and that name leads to the file ".png.png", which is not
   * the card.
   */
  lemma EmptyNameLost(game: string, folder: string, meta: Metadata, name: string)
    requires Sanitize(name) == ""
    ensures FileName(name) == ".png"
    ensures |ListingOf(game, folder, {".png"}, meta)| == 1
    ensures ListingOf(game, folder, {".png"}, meta)[0].name == ".png"
    ensures ListingOf(game, folder, {".png"}, meta)[0].name + ".png" !in {".png"}
  {
    var one: set<string> := {".png"};
    assert EndsWith(".png", ".png");
    assert Pngs(one) == one;
    assert Least(one) == ".png";
    assert one - {".png"} == {};
    assert Sorted(one) == [".png"];
    assert [".png"][..0] == [];
    assert Entries(game, folder, [".png"], meta) == [Card(game, folder, ".png", meta)];
  }

  /** The generated name is `carte_` and three digits denoting `n + 1`, and sanitising keeps it. */
  lemma AutoNameShape(n: nat)
    requires n + 1 < 1000
    ensures var a := AutoName(n);
      |a| == 9 && a[..6] == "carte_" && Value(a[6..]) == n + 1 && Sanitize(a) == a
  {
    var a := AutoName(n);
    var d := ZeroPad(Digits(n + 1), 3);
    PaddedCount(n);
    assert a[6..] == d;
    assert AllAllowed(a) by {
      forall i | 0 <= i < |a| ensures Allowed(a[i]) {
        if i >= 6 { assert a[i] == d[i - 6]; }
      }
    }
    CleanIsFixed(a);
  }

  /** Below 999 files the padded count has exactly three digits. */
  lemma PaddedCount(n: nat)
    requires n + 1 < 1000
    ensures var d := ZeroPad(Digits(n + 1), 3);
      |d| == 3 && (forall i :: 0 <= i < |d| ==> IsDigit(d[i])) && Value(d) == n + 1
  {
    PaddedValue(n + 1, 3);
    DigitsLength(n + 1);
  }

  lemma {:induction false} DigitsLength(n: nat)
    ensures |Digits(n)| > 3 ==> n >= 1000
    decreases n
  {
    if n >= 10 {
      DigitsLength(n / 10);
      if |Digits(n / 10)| == 3 {
        NoLeadingZero(n / 10);
        DigitsBelow(n / 10);
      }
    }
  }

  lemma {:induction false} DigitsBelow(n: nat)
    requires |Digits(n)| == 3 && Digits(n)[0] != '0'
    ensures n >= 100
  {
    assert n >= 10;
    assert n / 10 >= 10;
  }

  /** Taking the least remaining name moves it from the rest of the sorted order to what is done. */
  lemma SortedNext(all: set<string>, done: seq<string>, remaining: set<string>, f: string)
    requires Sorted(all) == done + Sorted(remaining) && IsLeast(f, remaining)
    ensures Sorted(all) == (done + [f]) + Sorted(remaining - {f})
  {
    SortedStep(remaining, f);
    assert done + ([f] + Sorted(remaining - {f})) == (done + [f]) + Sorted(remaining - {f});
  }

  /** The loop of `get_cards_by_type`: walks the .png files of the folder in sorted order. */
  method ListFolder(game: string, folder: string, files: set<string>, meta: Metadata) returns (cards: seq<CardInfo>)
    ensures cards == ListingOf(game, folder, files, meta)
  {
    var all := Pngs(files);
    var remaining := all;
    ghost var done: seq<string> := [];
    cards := [];
    while remaining != {}
      invariant Sorted(all) == done + Sorted(remaining)
      invariant cards == Entries(game, folder, done, meta)
      decreases |remaining|
    {
      LeastExists(remaining);
      var f :| IsLeast(f, remaining);
      SortedNext(all, done, remaining, f);
      EntriesSnoc(game, folder, done, f, meta);
      if f != BackFile {
        cards := cards + [Card(game, folder, f, meta)];
      }
      done := done + [f];
      remaining := remaining - {f};
    }
    assert Sorted(remaining) == [];
    assert done + [] == done;
  }

  // ---------------------------------------------------------------------------
  // The library state.

  /**
   * What the library keeps consistent: types, configurations and
   * metadata belong to existing games and folders, each configured type
   * has its folder, and its `folder` field is its key.
   */
  predicate Consistent(games: set<string>, configs: map<string, CardTypes>,
                       folders: map<FolderId, set<string>>, decks: map<FolderId, Metadata>)
  {
    (forall d :: d in folders ==> d.game in games) &&
    (forall g :: g in configs ==> g in games) &&
    (forall d :: d in decks ==> d in folders) &&
    (forall g, k :: g in configs && k in configs[g] ==> configs[g][k].folder == k && FolderId(g, k) in folders)
  }

  /** Changing the files inside existing folders keeps the library consistent. */
  lemma ConsistentFiles(games: set<string>, configs: map<string, CardTypes>, folders: map<FolderId, set<string>>,
                        decks: map<FolderId, Metadata>, folders': map<FolderId, set<string>>)
    requires Consistent(games, configs, folders, decks) && folders'.Keys == folders.Keys
    ensures Consistent(games, configs, folders', decks)
  {
  }

  /** Writing the `cards.json` of an existing folder keeps the library consistent. */
  lemma ConsistentMeta(games: set<string>, configs: map<string, CardTypes>, folders: map<FolderId, set<string>>,
                       decks: map<FolderId, Metadata>, d: FolderId, m: Metadata)
    requires Consistent(games, configs, folders, decks) && d in folders
    ensures Consistent(games, configs, folders, decks[d := m])
  {
  }

  class GameManager {
    /** The game directories under `data`. */
    var games: set<string>
    /** The `card_types` of each game's `config.json`, where one exists. */
    var configs: map<string, CardTypes>
    /** The file names in each card-type directory. */
    var folders: map<FolderId, set<string>>
    /** Each card-type directory's `cards.json`, where one exists. */
    var decks: map<FolderId, Metadata>

    predicate Valid()
      reads this
    {
      Consistent(games, configs, folders, decks)
    }

    /** The library opened on an existing `data` directory. */
    constructor (games0: set<string>, configs0: map<string, CardTypes>,
                 folders0: map<FolderId, set<string>>, decks0: map<FolderId, Metadata>)
      requires Consistent(games0, configs0, folders0, decks0)
      ensures Valid()
      ensures games == games0 && configs == configs0 && folders == folders0 && decks == decks0
    {
      games, configs, folders, decks := games0, configs0, folders0, decks0;
    }

    /** `get_card_types`: an absent configuration reads as no types. */
    function CardTypesOf(game: string): CardTypes
      reads this
    {
      if game in configs then configs[game] else map[]
    }

    function FilesOf(d: FolderId): set<string>
      reads this
    {
      if d in folders then folders[d] else {}
    }

    /** `_load_deck_metadata`: an absent `cards.json` reads as empty. */
    function Meta(d: FolderId): Metadata
      reads this
    {
      if d in decks then decks[d] else map[]
    }

    /** Whether a file exists. */
    predicate OnDisk(p: FilePath)
      reads this
    {
      p.Dir() in folders && p.file in folders[p.Dir()]
    }

    ghost function Listing(game: string, folder: string): seq<CardInfo>
      reads this
    {
      var d := FolderId(game, folder);
      if d in folders then ListingOf(game, folder, folders[d], Meta(d)) else []
    }

    /** `get_back_image_path`. */
    function BackImagePath(game: string, folder: string): (r: Option<FilePath>)
      reads this
      ensures r.Some? ==> OnDisk(r.value) && r.value == FilePath(game, folder, BackFile)
      ensures r.None? ==> !OnDisk(FilePath(game, folder, BackFile))
    {
      if BackFile in FilesOf(FolderId(game, folder)) then Some(FilePath(game, folder, BackFile)) else None
    }

    /**
     * `create_game`. `fault` is the error the directory creation raises,
     * if it raises one.
     */
    method CreateGame(gameName: string, fault: Option<string>) returns (ok: bool, msg: string)
      requires Valid()
      modifies this
      ensures Valid()
      ensures var s := Sanitize(gameName);
        if s == "" then !ok && msg == InvalidGame && unchanged(this)
        else if s in old(games) then !ok && msg == GameExists && unchanged(this)
        else if fault.Some? then !ok && msg == "Erreur lors de la création : " + fault.value && unchanged(this)
        else (ok && msg == "Jeu '" + s + "' créé avec succès !" &&
          games == old(games) + {s} && configs == old(configs)[s := map[]] &&
          folders == old(folders) && decks == old(decks))
    {
      var s := Sanitize(gameName);
      if s == "" {
        return false, InvalidGame;
      }
      if s in games {
        return false, GameExists;
      }
      if fault.Some? {
        return false, "Erreur lors de la création : " + fault.value;
      }
      games := games + {s};
      configs := configs[s := map[]];
      return true, "Jeu '" + s + "' créé avec succès !";
    }

    /**
     * `add_card_type`. `fault` is the error the directory creation
     * raises; creating a folder in a game directory that does not exist
     * always raises one.
     */
    method AddCardType(gameName: string, typeName: string, widthMm: Mm, heightMm: Mm, fault: Option<string>)
      returns (ok: bool, msg: string)
      requires Valid()
      requires gameName !in games ==> fault.Some?
      modifies this
      ensures Valid()
      ensures var s := Sanitize(typeName);
        var d := FolderId(gameName, s);
        if s in old(CardTypesOf(gameName)) then !ok && msg == TypeExists && unchanged(this)
        else if fault.Some? then !ok && msg == "Erreur création dossier : " + fault.value && unchanged(this)
        else (ok && msg == "Type '" + typeName + "' ajouté (" + Digits(widthMm) + "x" + Digits(heightMm) + "mm)" &&
          configs == old(configs)[gameName := old(CardTypesOf(gameName))[s := TypeEntry(typeName, widthMm, heightMm, s)]] &&
          folders == (if d in old(folders) then old(folders) else old(folders)[d := {}]) &&
          games == old(games) && decks == old(decks))
    {
      var config := CardTypesOf(gameName);
      var s := Sanitize(typeName);
      if s in config {
        return false, TypeExists;
      }
      if fault.Some? {
        return false, "Erreur création dossier : " + fault.value;
      }
      var d := FolderId(gameName, s);
      if d !in folders {
        folders := folders[d := {}];
      }
      configs := configs[gameName := config[s := TypeEntry(typeName, widthMm, heightMm, s)]];
      return true, "Type '" + typeName + "' ajouté (" + Digits(widthMm) + "x" + Digits(heightMm) + "mm)";
    }

    /**
     * `save_card`: the image itself is not modelled, only that a file of
     * that name now exists. `fault` is the error writing it raises.
     */
    method SaveCard(gameName: string, folder: string, cardName: Option<string>, count: int, fault: Option<string>)
      returns (ok: bool, msg: string)
      requires Valid()
      modifies this
      ensures Valid()
      ensures var d := FolderId(gameName, folder);
        if d !in old(folders) then !ok && msg == NoTypeFolder && unchanged(this)
        else if fault.Some? then !ok && msg == "Erreur de sauvegarde : " + fault.value && unchanged(this)
        else
          var f := FileName(SavedName(cardName, |Pngs(old(folders[d]))|));
          ok && msg == "Carte enregistrée : " + f + " (x" + IntText(count) + ")" &&
          folders == old(folders)[d := old(folders[d]) + {f}] &&
          decks == old(decks)[d := old(Meta(d))[f := count]] &&
          games == old(games) && configs == old(configs)
    {
      var d := FolderId(gameName, folder);
      if d !in folders {
        return false, NoTypeFolder;
      }
      var name := SavedName(cardName, |Pngs(folders[d])|);
      var f := FileName(name);
      if fault.Some? {
        return false, "Erreur de sauvegarde : " + fault.value;
      }
      folders := folders[d := folders[d] + {f}];
      var meta := Meta(d);
      decks := decks[d := meta[f := count]];
      return true, "Carte enregistrée : " + f + " (x" + IntText(count) + ")";
    }

    /** `get_cards_by_type`. */
    method GetCardsByType(gameName: string, folder: string) returns (cards: seq<CardInfo>)
      ensures cards == Listing(gameName, folder)
    {
      var d := FolderId(gameName, folder);
      if d !in folders {
        return [];
      }
      cards := ListFolder(gameName, folder, folders[d], Meta(d));
    }

    /** `delete_card`. `fault` is the error removing the file raises. */
    method DeleteCard(gameName: string, folder: string, cardName: string, fault: Option<string>)
      returns (ok: bool, msg: string)
      requires Valid()
      modifies this
      ensures Valid()
      ensures var d := FolderId(gameName, folder);
        var f := cardName + ".png";
        if f !in old(FilesOf(d)) then !ok && msg == FileMissing && unchanged(this)
        else if fault.Some? then !ok && msg == "Erreur : " + fault.value && unchanged(this)
        else (ok && msg == CardDeleted &&
          folders == old(folders)[d := old(folders[d]) - {f}] &&
          decks == (if f in old(Meta(d)) then old(decks)[d := old(Meta(d)) - {f}] else old(decks)) &&
          games == old(games) && configs == old(configs))
    {
      var d := FolderId(gameName, folder);
      var f := cardName + ".png";
      if f !in FilesOf(d) {
        return false, FileMissing;
      }
      if fault.Some? {
        return false, "Erreur : " + fault.value;
      }
      folders := folders[d := folders[d] - {f}];
      var meta := Meta(d);
      if f in meta {
        decks := decks[d := meta - {f}];
      }
      return true, CardDeleted;
    }

    /**
     * `update_card`: rename, move to another type, or change the quantity.
     * Empty or absent `newName` and `newFolder` keep the current ones.
     * `fault` is the error moving the file raises.
     */
    method UpdateCard(gameName: string, folder: string, cardName: string,
                      newName: Option<string>, newFolder: Option<string>, newCount: Option<int>,
                      fault: Option<string>)
      returns (ok: bool, msg: string)
      requires Valid()
      modifies this
      ensures Valid()
      ensures var src := FolderId(gameName, folder);
        var oldFile := cardName + ".png";
        var target := OrElse(newFolder, folder);
        var dst := FolderId(gameName, target);
        var newFile := FileName(OrElse(newName, cardName));
        var moves := dst != src || newFile != oldFile;
        if oldFile !in old(FilesOf(src)) then !ok && msg == CardMissing && unchanged(this)
        else if dst !in old(folders) then !ok && msg == TargetMissing && unchanged(this)
        else if moves && newFile in old(folders[dst]) then !ok && msg == NameTaken && unchanged(this)
        else if moves && fault.Some? then !ok && msg == "Erreur déplacer fichier : " + fault.value && unchanged(this)
        else (ok && msg == CardUpdated &&
          folders == (if moves then Moved(old(folders), src, oldFile, dst, newFile) else old(folders)) &&
          decks == MetaAfterUpdate(old(decks), src, oldFile, dst, newFile, newCount) &&
          games == old(games) && configs == old(configs))
    {
      var src := FolderId(gameName, folder);
      var oldFile := cardName + ".png";
      if oldFile !in FilesOf(src) {
        return false, CardMissing;
      }
      var target := OrElse(newFolder, folder);
      var dst := FolderId(gameName, target);
      if dst !in folders {
        return false, TargetMissing;
      }
      var newFile := FileName(OrElse(newName, cardName));
      if dst != src || newFile != oldFile {
        if newFile in folders[dst] {
          return false, NameTaken;
        }
        if fault.Some? {
          return false, "Erreur déplacer fichier : " + fault.value;
        }
        ConsistentFiles(games, configs, folders, decks, Moved(folders, src, oldFile, dst, newFile));
        folders := folders[src := folders[src] - {oldFile}];
        folders := folders[dst := folders[dst] + {newFile}];
      }
      CarryMetadata(src, oldFile, dst, newFile, newCount);
      return true, CardUpdated;
    }

    /**
     * The metadata steps of `update_card`: the quantity recorded under
     * the old name (1 if none), or the new one when given, moves to the
     * new name in the target folder's `cards.json`.
     */
    method CarryMetadata(src: FolderId, oldFile: string, dst: FolderId, newFile: string, newCount: Option<int>)
      requires Valid() && src in folders && dst in folders
      modifies this
      ensures Valid()
      ensures decks == MetaAfterUpdate(old(decks), src, oldFile, dst, newFile, newCount)
      ensures games == old(games) && configs == old(configs) && folders == old(folders)
    {
      var oldMeta := Meta(src);
      var data := if oldFile in oldMeta then oldMeta[oldFile] else 1;
      if newCount.Some? {
        data := newCount.value;
      }
      if dst != src {
        if oldFile in oldMeta {
          ConsistentMeta(games, configs, folders, decks, src, oldMeta - {oldFile});
          decks := decks[src := oldMeta - {oldFile}];
        }
        var newMeta := Meta(dst);
        ConsistentMeta(games, configs, folders, decks, dst, newMeta[newFile := data]);
        decks := decks[dst := newMeta[newFile := data]];
      } else if newFile != oldFile {
        ConsistentMeta(games, configs, folders, decks, src, (oldMeta - {oldFile})[newFile := data]);
        decks := decks[src := (oldMeta - {oldFile})[newFile := data]];
      } else if newCount.Some? {
        ConsistentMeta(games, configs, folders, decks, src, oldMeta[oldFile := data]);
        decks := decks[src := oldMeta[oldFile := data]];
      }
    }

    /** `save_back_image`. `fault` is the error writing the image raises. */
    method SaveBackImage(gameName: string, folder: string, fault: Option<string>) returns (ok: bool, msg: string)
      requires Valid()
      modifies this
      ensures Valid()
      ensures var d := FolderId(gameName, folder);
        if d !in old(folders) then !ok && msg == NoBackFolder && unchanged(this)
        else if fault.Some? then !ok && msg == "Erreur de sauvegarde : " + fault.value && unchanged(this)
        else (ok && msg == BackSaved && folders == old(folders)[d := old(folders[d]) + {BackFile}] &&
          games == old(games) && configs == old(configs) && decks == old(decks))
    {
      var d := FolderId(gameName, folder);
      if d !in folders {
        return false, NoBackFolder;
      }
      if fault.Some? {
        return false, "Erreur de sauvegarde : " + fault.value;
      }
      folders := folders[d := folders[d] + {BackFile}];
      return true, BackSaved;
    }
  }

  // ---------------------------------------------------------------------------
  // The effects of `update_card`, and what they keep.

  /** The folders after `shutil.move` of `src/oldFile` to `dst/newFile`. */
  function Moved(folders: map<FolderId, set<string>>, src: FolderId, oldFile: string, dst: FolderId, newFile: string)
    : map<FolderId, set<string>>
    requires src in folders && dst in folders
  {
    var f := folders[src := folders[src] - {oldFile}];
    f[dst := f[dst] + {newFile}]
  }

  function MetaOf(decks: map<FolderId, Metadata>, d: FolderId): Metadata
  {
    if d in decks then decks[d] else map[]
  }

  /** The quantity `update_card` gives the card: the new one, else the recorded one, else 1. */
  function UpdatedCount(m: Metadata, oldFile: string, newCount: Option<int>): int
  {
    if newCount.Some? then newCount.value else if oldFile in m then m[oldFile] else 1
  }

  /** The metadata files after the update of a card that was found and could be moved. */
  function MetaAfterUpdate(decks: map<FolderId, Metadata>, src: FolderId, oldFile: string, dst: FolderId, newFile: string,
                           newCount: Option<int>): map<FolderId, Metadata>
  {
    var m := MetaOf(decks, src);
    var data := UpdatedCount(m, oldFile, newCount);
    if dst != src then
      var d1 := if oldFile in m then decks[src := m - {oldFile}] else decks;
      d1[dst := MetaOf(decks, dst)[newFile := data]]
    else if newFile != oldFile then decks[src := (m - {oldFile})[newFile := data]]
    else if newCount.Some? then decks[src := m[oldFile := data]]
    else decks
  }

  /**
   * After an update the card's metadata sits under its new name in its
   * new folder with the carried or new quantity; its old name has no
   * metadata left when the card was renamed or moved; and no other
   * file's metadata changes, in any folder.
   */
  lemma UpdateKeepsMetadata(decks: map<FolderId, Metadata>, src: FolderId, oldFile: string, dst: FolderId, newFile: string,
                            newCount: Option<int>)
    ensures var after := MetaAfterUpdate(decks, src, oldFile, dst, newFile, newCount);
      var data := UpdatedCount(MetaOf(decks, src), oldFile, newCount);
      ((dst != src || newFile != oldFile || newCount.Some? || oldFile in MetaOf(decks, src)) ==>
         newFile in MetaOf(after, dst) && MetaOf(after, dst)[newFile] == data) &&
      ((dst != src || newFile != oldFile) ==> oldFile !in MetaOf(after, src)) &&
      (forall d, f :: (d, f) != (src, oldFile) && (d, f) != (dst, newFile) ==>
         (f in MetaOf(after, d) <==> f in MetaOf(decks, d)) &&
         (f in MetaOf(decks, d) ==> MetaOf(after, d)[f] == MetaOf(decks, d)[f]))
  {
  }

  /**
   * A move keeps every other file where it was: the card leaves its old
   * place and appears at its new one.
   */
  lemma MoveKeepsOthers(folders: map<FolderId, set<string>>, src: FolderId, oldFile: string, dst: FolderId, newFile: string)
    requires src in folders && dst in folders
    ensures var after := Moved(folders, src, oldFile, dst, newFile);
      after.Keys == folders.Keys &&
      newFile in after[dst] &&
      ((src, oldFile) != (dst, newFile) ==> oldFile !in after[src]) &&
      forall d, f :: d in folders && (d, f) != (src, oldFile) && (d, f) != (dst, newFile) ==>
        (f in after[d] <==> f in folders[d])
  {
  }
}
