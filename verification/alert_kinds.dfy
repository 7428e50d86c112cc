/**
 * The five alert kinds, the two lookup tables keyed by their lowercase
 * names, and recognition of the kind token inside a `[!KIND]` marker.
 */
module AlertKinds {
  import opened Wrappers
  import opened Text

  /** The closed set of alert severities. */
  datatype Kind = Note | Tip | Important | Warning | Caution

  /** The lowercase spelling of a kind: the key of both tables and the
      suffix of the emitted CSS class. Reading it back gives the kind, so
      different kinds have different names. */
  function Name(k: Kind): (n: string)
    ensures KindNamed(n) == Some(k)
  {
    match k
    case Note => "note"
    case Tip => "tip"
    case Important => "important"
    case Warning => "warning"
    case Caution => "caution"
  }

  /** The kind with the given lowercase name, if there is one. */
  function KindNamed(name: string): Option<Kind> {
    if name == "note" then Some(Note)
    else if name == "tip" then Some(Tip)
    else if name == "important" then Some(Important)
    else if name == "warning" then Some(Warning)
    else if name == "caution" then Some(Caution)
    else None
  }

  /** The alternatives of the marker pattern, in the order they are tried. */
  const Kinds: seq<Kind> := [Note, Tip, Important, Warning, Caution]

  /** Display titles, keyed by lowercase kind name. */
  const AlertTitles: map<string, string> := map[
      "note" := "Note",
      "tip" := "Tip",
      "important" := "Important",
      "warning" := "Warning",
      "caution" := "Caution"
    ]

  /** The inline SVG icon of each kind; the markup is not interpreted by
      the model. */
  function KindIcon(k: Kind): string {
    match k
    case Note =>
      "<svg class=\"octicon\" viewBox=\"0 0 16 16\" width=\"16\" height=\"16\"><path d=\"M0 8a8 8 0 1 1 16 0A8 8 0 0 1 0 8Zm8-6.5a6.5 6.5 0 1 0 0 13 6.5 6.5 0 0 0 0-13ZM6.5 7.75A.75.75 0 0 1 7.25 7h1a.75.75 0 0 1 .75.75v2.75h.25a.75.75 0 0 1 0 1.5h-2a.75.75 0 0 1 0-1.5h.25v-2h-.25a.75.75 0 0 1-.75-.75ZM8 6a1 1 0 1 1 0-2 1 1 0 0 1 0 2Z\"></path></svg>"
    case Tip =>
      "<svg class=\"octicon\" viewBox=\"0 0 16 16\" width=\"16\" height=\"16\"><path d=\"M8 1.5c-2.363 0-4 1.69-4 3.75 0 .984.424 1.625.984 2.304l.214.253c.223.264.47.556.673.848.284.411.537.896.621 1.49a.75.75 0 0 1-1.484.211c-.04-.282-.163-.547-.37-.847a8.456 8.456 0 0 0-.542-.68c-.084-.1-.173-.205-.268-.32C3.201 7.75 2.5 6.766 2.5 5.25 2.5 2.31 4.863 0 8 0s5.5 2.31 5.5 5.25c0 1.516-.701 2.5-1.328 3.259-.095.115-.184.22-.268.319-.207.245-.383.453-.541.681-.208.3-.33.565-.37.847a.751.751 0 0 1-1.485-.212c.084-.593.337-1.078.621-1.489.203-.292.45-.584.673-.848.075-.088.147-.173.213-.253.561-.679.985-1.32.985-2.304 0-2.06-1.637-3.75-4-3.75ZM5.75 12h4.5a.75.75 0 0 1 0 1.5h-4.5a.75.75 0 0 1 0-1.5ZM6 15.25a.75.75 0 0 1 .75-.75h2.5a.75.75 0 0 1 0 1.5h-2.5a.75.75 0 0 1-.75-.75Z\"></path></svg>"
    case Important =>
      "<svg class=\"octicon\" viewBox=\"0 0 16 16\" width=\"16\" height=\"16\"><path d=\"M0 1.75C0 .784.784 0 1.75 0h12.5C15.216 0 16 .784 16 1.75v9.5A1.75 1.75 0 0 1 14.25 13H8.06l-2.573 2.573A1.458 1.458 0 0 1 3 14.543V13H1.75A1.75 1.75 0 0 1 0 11.25Zm1.75-.25a.25.25 0 0 0-.25.25v9.5c0 .138.112.25.25.25h2a.75.75 0 0 1 .75.75v2.19l2.72-2.72a.749.749 0 0 1 .53-.22h6.5a.25.25 0 0 0 .25-.25v-9.5a.25.25 0 0 0-.25-.25Zm7 2.25v2.5a.75.75 0 0 1-1.5 0v-2.5a.75.75 0 0 1 1.5 0ZM9 9a1 1 0 1 1-2 0 1 1 0 0 1 2 0Z\"></path></svg>"
    case Warning =>
      "<svg class=\"octicon\" viewBox=\"0 0 16 16\" width=\"16\" height=\"16\"><path d=\"M6.457 1.047c.659-1.234 2.427-1.234 3.086 0l6.082 11.378A1.75 1.75 0 0 1 14.082 15H1.918a1.75 1.75 0 0 1-1.543-2.575Zm1.763.707a.25.25 0 0 0-.44 0L1.698 13.132a.25.25 0 0 0 .22.368h12.164a.25.25 0 0 0 .22-.368Zm.53 3.996v2.5a.75.75 0 0 1-1.5 0v-2.5a.75.75 0 0 1 1.5 0ZM9 11a1 1 0 1 1-2 0 1 1 0 0 1 2 0Z\"></path></svg>"
    case Caution =>
      "<svg class=\"octicon\" viewBox=\"0 0 16 16\" width=\"16\" height=\"16\"><path d=\"M4.47.22A.749.749 0 0 1 5 0h6c.199 0 .389.079.53.22l4.25 4.25c.141.14.22.331.22.53v6a.749.749 0 0 1-.22.53l-4.25 4.25A.749.749 0 0 1 11 16H5a.749.749 0 0 1-.53-.22L.22 11.53A.749.749 0 0 1 0 11V5c0-.199.079-.389.22-.53Zm.84 1.28L1.5 5.31v5.38l3.81 3.81h5.38l3.81-3.81V5.31L10.69 1.5ZM8 4a.75.75 0 0 1 .75.75v3.5a.75.75 0 0 1-1.5 0v-3.5A.75.75 0 0 1 8 4Zm0 8a1 1 0 1 1 0-2 1 1 0 0 1 0 2Z\"></path></svg>"
  }

  /** The table keys: the five lowercase kind names. */
  const KindNames: set<string> := {"note", "tip", "important", "warning", "caution"}

  /** The icon stored under a table key. */
  function IconNamed(name: string): string {
    match KindNamed(name)
    case Some(k) => KindIcon(k)
    case None => ""
  }

  /** Inline SVG icons, keyed by lowercase kind name. */
  const AlertIcons: map<string, string> := map name | name in KindNames :: IconNamed(name)

  /** The title a kind is shown with. */
  function Title(k: Kind): string {
    Lookup(AlertTitles, Name(k), "")
  }

  /** The icon a kind is shown with. */
  function Icon(k: Kind): string {
    Lookup(AlertIcons, Name(k), "")
  }

  /** The title table holds an entry for every kind and nothing else. */
  lemma TitlesCoverKinds()
    ensures forall k: Kind :: Name(k) in AlertTitles
    ensures forall key :: key in AlertTitles ==> KindNamed(key).Some? && Name(KindNamed(key).value) == key
  {
    assert Name(Note) == "note" && Name(Tip) == "tip" && Name(Important) == "important";
    assert Name(Warning) == "warning" && Name(Caution) == "caution";
  }

  /** The icon table holds an entry for every kind ... */
  lemma IconsCoverKinds()
    ensures forall k: Kind :: Name(k) in AlertIcons
  {
    NamesAreKeys();
  }

  /** ... and nothing else: each of its keys is the name of a kind. */
  lemma IconKeyNamesKind(key: string)
    ensures key in AlertIcons ==> KindNamed(key).Some? && Name(KindNamed(key).value) == key
  {
    if key in AlertIcons {
      IconKeys();
      assert key in KindNames;
      KeyIsName(key);
    }
  }

  lemma KeyIsName(key: string)
    requires key in KindNames
    ensures KindNamed(key).Some? && Name(KindNamed(key).value) == key
  {
    KeysAreNames();
  }

  lemma IconKeys()
    ensures AlertIcons.Keys == KindNames
  {
  }

  /** Every kind name reads back as its kind. */
  lemma KeysAreNames()
    ensures forall key :: key in KindNames ==> KindNamed(key).Some? && Name(KindNamed(key).value) == key
  {
  }

  /** The icon shown for a kind is that kind's own icon, never the empty
      fallback of the lookup. */
  lemma IconOfKind(k: Kind)
    ensures Icon(k) == KindIcon(k)
  {
    IconsCoverKinds();
  }

  lemma NamesAreKeys()
    ensures forall k: Kind :: Name(k) in KindNames
  {
    assert Name(Note) == "note" && Name(Tip) == "tip" && Name(Important) == "important";
    assert Name(Warning) == "warning" && Name(Caution) == "caution";
  }

  /** Each kind name is its own lowercase form, and its title is the
      capitalised name, so the `capitalize()` fallback of the title lookup
      agrees with the table. */
  lemma TitlesAreCapitalisedNames()
    ensures forall k: Kind :: Lower(Name(k)) == Name(k)
    ensures forall k: Kind :: Title(k) == Capitalize(Name(k))
  {
    forall k: Kind ensures Lower(Name(k)) == Name(k) && Title(k) == Capitalize(Name(k)) {
      TitleIsCapitalisedName(k, Name(k));
    }
  }

  lemma TitleIsCapitalisedName(k: Kind, n: string)
    requires n == Name(k)
    ensures Lower(n) == n && Title(k) == Capitalize(n)
  {
    NameIsLowercase(k, n);
    LowerOfLowercase(n);
    LowerOfLowercase(n[1..]);
    TitleIsUpperName(k, n);
  }

  lemma NameIsLowercase(k: Kind, n: string)
    requires n == Name(k)
    ensures forall i :: 0 <= i < |n| ==> 'a' <= n[i] <= 'z'
  {
  }

  lemma TitleIsUpperName(k: Kind, n: string)
    requires n == Name(k)
    ensures Title(k) == [UpperChar(n[0])] + n[1..]
  {
    TitlesCoverKinds();
  }

  /** The kind token `NAME]` at `q`, matched ignoring case. */
  predicate KindTokenAt(s: string, q: nat, k: Kind) {
    var n := |Name(k)|;
    q + n < |s| && EqualsIgnoreCase(s[q..q + n], Name(k)) && s[q + n] == ']'
  }

  /** The alternation `(NOTE|TIP|IMPORTANT|WARNING|CAUTION)\]` under
      `IGNORECASE`, tried at `q`. */
  function KindAt(s: string, q: nat): (r: Option<Kind>)
    ensures r.Some? ==> KindTokenAt(s, q, r.value)
    ensures forall k :: KindTokenAt(s, q, k) ==> r == Some(k)
  {
    FirstKindAt(s, q, Kinds)
  }

  function FirstKindAt(s: string, q: nat, ks: seq<Kind>): (r: Option<Kind>)
    ensures r.Some? ==> r.value in ks && KindTokenAt(s, q, r.value)
    ensures forall k :: k in ks && KindTokenAt(s, q, k) ==> r == Some(k)
  {
    if |ks| == 0 then None
    else if KindTokenAt(s, q, ks[0]) then
      KindTokenUnique(s, q, ks[0]);
      Some(ks[0])
    else FirstKindAt(s, q, ks[1..])
  }

  /** At most one kind token starts at a given position: the five names
      begin with five different letters. */
  lemma KindTokenUnique(s: string, q: nat, k: Kind)
    requires KindTokenAt(s, q, k)
    ensures forall k' :: KindTokenAt(s, q, k') ==> k' == k
  {
    forall k' | KindTokenAt(s, q, k') ensures k' == k {
      assert Lower(s[q..q + |Name(k)|])[0] == Lower(Name(k))[0];
      assert Lower(s[q..q + |Name(k')|])[0] == Lower(Name(k'))[0];
    }
  }

  /** A kind token lower-cases to the kind's table key: the value the
      replacement uses as `alert_type`. */
  lemma TokenLowersToName(s: string, q: nat, k: Kind)
    requires KindTokenAt(s, q, k)
    ensures Lower(s[q..q + |Name(k)|]) == Name(k)
  {
    TitlesAreCapitalisedNames();
  }

  /** `[!INFO]` and other names outside the five are never recognised. */
  lemma InfoIsNoKind(s: string, q: nat)
    requires q + 5 <= |s| && s[q..q + 5] == "INFO]"
    ensures KindAt(s, q) == None
  {
    assert s[q] == s[q..q + 5][0] == 'I' && s[q + 1] == s[q..q + 5][1] == 'N';
    forall k: Kind ensures !KindTokenAt(s, q, k) {
      var n := |Name(k)|;
      if q + n < |s| {
        if k == Important {
          assert Lower(s[q..q + n])[1] != Lower(Name(k))[1];
        } else {
          assert Lower(s[q..q + n])[0] != Lower(Name(k))[0];
        }
      }
    }
  }
}
