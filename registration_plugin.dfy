/**
 * RegistrationPlugin: registerPlugin, which adds a plugin class to the
 * `<consumer>Plugins` dictionary of a package, the first registration of a
 * key winning; and a plugin's `widgets` list, which create appends to and
 * destroy empties.  The package's attributes and the importable modules are
 * maps; a module is a map from attribute names to plugin classes.
 */
module RegistrationPlugins {
  import opened Wrappers

  /** A plugin class, by identity. */
  datatype PluginClass = PluginClass(id: nat)

  /** A Qt frame, by identity. */
  datatype Frame = Frame(id: nat)

  /** Exceptions registerPlugin lets escape. */
  datatype PyError = NameError | KeyError

  /** How a registerPlugin call ended. */
  datatype Outcome = Registered | AlreadyRegistered | LoadFailed | Raised(error: PyError)

  type PluginDict = map<string, PluginClass>

  /** name.split('.')[-1]: the text after the last dot, or all of it when there is none. */
  function LastComponent(name: string): (r: string)
    ensures '.' !in r
    ensures |r| <= |name| && r == name[|name| - |r|..]
    ensures |r| < |name| ==> name[|name| - |r| - 1] == '.'
  {
    if name == [] then []
    else if name[|name| - 1] == '.' then []
    else LastComponent(name[..|name| - 1]) + [name[|name| - 1]]
  }

  /** `pat` occurs in `s` at index i. */
  predicate OccursAt(s: string, pat: string, i: nat) {
    i + |pat| <= |s| && s[i..i + |pat|] == pat
  }

  /**
   * s.replace(pat, ''): every occurrence of `pat` removed, scanning left to
   * right without overlaps; an empty `pat` leaves `s` as it is.
   */
  function RemoveAll(s: string, pat: string): (r: string)
    ensures |r| <= |s|
    decreases |s|
  {
    if pat == [] || |s| < |pat| then s
    else if s[..|pat|] == pat then RemoveAll(s[|pat|..], pat)
    else [s[0]] + RemoveAll(s[1..], pat)
  }

  /** Without an occurrence of `pat` nothing is removed. */
  lemma {:induction false} RemoveAllAbsent(s: string, pat: string)
    requires forall i: nat :: !OccursAt(s, pat, i)
    ensures RemoveAll(s, pat) == s
  {
    if pat != [] && |s| >= |pat| {
      assert !OccursAt(s, pat, 0);
      forall i: nat
        ensures !OccursAt(s[1..], pat, i)
      {
        assert !OccursAt(s, pat, i + 1);
        if i + |pat| <= |s[1..]| {
          assert s[1..][i..i + |pat|] == s[i + 1..i + 1 + |pat|];
        }
      }
      RemoveAllAbsent(s[1..], pat);
    }
  }

  /** The first occurrence goes and the scan resumes right after it; what precedes it is kept. */
  lemma {:induction false} RemoveAllFirst(a: string, pat: string, b: string)
    requires pat != []
    requires forall i: nat :: i < |a| ==> !OccursAt(a + pat + b, pat, i)
    ensures RemoveAll(a + pat + b, pat) == a + RemoveAll(b, pat)
    decreases |a|
  {
    if a == [] {
      assert a + pat + b == pat + b;
      RemoveAllHit(pat, b);
    } else {
      RemoveAllSkip(a, pat, b);
      NoEarlyShift(a, pat, b);
      RemoveAllFirst(a[1..], pat, b);
      assert [a[0]] + (a[1..] + RemoveAll(b, pat)) == a + RemoveAll(b, pat);
    }
  }

  lemma RemoveAllHit(pat: string, b: string)
    requires pat != []
    ensures RemoveAll(pat + b, pat) == RemoveAll(b, pat)
  {
    assert (pat + b)[..|pat|] == pat;
    assert (pat + b)[|pat|..] == b;
  }

  lemma RemoveAllSkip(a: string, pat: string, b: string)
    requires pat != [] && a != [] && !OccursAt(a + pat + b, pat, 0)
    ensures RemoveAll(a + pat + b, pat) == [a[0]] + RemoveAll(a[1..] + pat + b, pat)
  {
    var s := a + pat + b;
    assert s[..|pat|] == s[0..|pat|];
    assert s[1..] == a[1..] + pat + b;
  }

  lemma NoEarlyShift(a: string, pat: string, b: string)
    requires a != [] && forall i: nat :: i < |a| ==> !OccursAt(a + pat + b, pat, i)
    ensures forall i: nat :: i < |a| - 1 ==> !OccursAt(a[1..] + pat + b, pat, i)
  {
    var s := a + pat + b;
    assert s[1..] == a[1..] + pat + b;
    forall i: nat | i < |a| - 1 ensures !OccursAt(a[1..] + pat + b, pat, i) {
      OccursShift(s, pat, i);
    }
  }

  lemma OccursShift(s: string, pat: string, i: nat)
    requires s != []
    ensures OccursAt(s[1..], pat, i) <==> OccursAt(s, pat, i + 1)
  {
    if i + |pat| <= |s| - 1 {
      assert s[1..][i..i + |pat|] == s[i + 1..i + 1 + |pat|];
    }
  }

  /** Removing the suffix from a word that ends with it, and holds it nowhere else, leaves the rest. */
  lemma RemoveAllTrailing(s: string, pat: string)
    requires pat != []
    requires forall i: nat :: i < |s| ==> !OccursAt(s + pat, pat, i)
    ensures RemoveAll(s + pat, pat) == s
  {
    assert s + pat == s + pat + [];
    RemoveAllFirst(s, pat, []);
  }

  /** Python's str.lower on ASCII letters. */
  function LowerChar(c: char): char {
    if 'A' <= c <= 'Z' then (c as int + 32) as char else c
  }

  function Lower(s: string): (r: string)
    ensures |r| == |s|
    ensures forall i :: 0 <= i < |s| ==> r[i] == LowerChar(s[i])
    ensures forall i :: 0 <= i < |r| ==> !('A' <= r[i] <= 'Z')
  {
    seq(|s|, i requires 0 <= i < |s| => LowerChar(s[i]))
  }

  lemma LowerIdempotent(s: string)
    ensures Lower(Lower(s)) == Lower(s)
  {
  }

  /** The key a plugin is registered under: the class name without `suffix`. */
  function PluginKey(name: string, suffix: string): string {
    RemoveAll(LastComponent(name), suffix)
  }

  /** The package attribute holding the consumer's plugins: lower-cased consumer then "Plugins". */
  function PluginDictName(consumer: string): (r: string)
    ensures |r| == |consumer| + 7 && r[|consumer|..] == "Plugins"
    ensures forall i :: 0 <= i < |consumer| ==> r[i] == LowerChar(consumer[i])
  {
    Lower(consumer) + "Plugins"
  }

  /**
   * A plugin module named `<package>.<word><suffix>`, whose word does not
   * hold the suffix, is registered under `<word>`: "RegistrationLib.AffinePlugin"
   * under "Affine".
   */
  lemma PluginKeyOfModule(package: string, word: string, suffix: string)
    requires suffix != [] && '.' !in word && '.' !in suffix
    requires forall i: nat :: i < |word| ==> !OccursAt(word + suffix, suffix, i)
    ensures PluginKey(package + "." + (word + suffix), suffix) == word
  {
    forall c | c in word + suffix
      ensures c != '.'
    {
      assert c in word || c in suffix;
    }
    LastComponentAfterDot(package, word + suffix);
    RemoveAllTrailing(word, suffix);
  }

  /** Registration plugins go to the package's "registrationPlugins". */
  lemma RegistrationDictName()
    ensures PluginDictName("Registration") == "registrationPlugins"
  {
  }

  /** The last component is what follows the last dot. */
  lemma {:induction false} LastComponentAfterDot(prefix: string, word: string)
    requires '.' !in word
    ensures LastComponent(prefix + "." + word) == word
    decreases |word|
  {
    var name := prefix + "." + word;
    if word == [] {
      assert name[|name| - 1] == '.';
    } else {
      var n := |word| - 1;
      assert name[..|name| - 1] == prefix + "." + word[..n];
      assert word[n] in word;
      LastComponentAfterDot(prefix, word[..n]);
      assert word[..n] + [word[n]] == word;
    }
  }

  /**
   * registerPlugin on the package's attributes `dicts`: the new attributes
   * and how the call ended.  The names are worked out first: `dictName` is
   * PluginDictName(consumer), `key` is PluginKey(name, suffix) and
   * `className` is LastComponent(name).  `globals` None stands for the
   * default, whose lookup raises the TypeError that sends registerPlugin to
   * the import.
   */
  function RegisterSpec(dicts: map<string, PluginDict>, dictName: string, key: string, className: string, name: string,
                      globals: Option<map<string, PluginClass>>, provider: Option<string>,
                      modules: map<string, map<string, PluginClass>>)
    : (map<string, PluginDict>, Outcome)
  {
    if !Truthy(provider) then (dicts, Raised(NameError))
    else
      var plugins := if dictName in dicts then dicts[dictName] else map[];
      var ds := dicts[dictName := plugins];
      if key in plugins then (ds, AlreadyRegistered)
      else match globals
        case Some(g) =>
          if className in g then (ds[dictName := plugins[key := g[className]]], Registered)
          else (ds, Raised(KeyError))
        case None =>
          if name in modules && className in modules[name] then
            (ds[dictName := plugins[key := modules[name][className]]], Registered)
          else (ds, LoadFailed)
  }

  /**
   * NameError exactly when there is no provider, and then nothing changes;
   * otherwise the consumer's dictionary exists afterwards.
   */
  lemma RegisterEnsuresDict(dicts: map<string, PluginDict>, dictName: string, key: string, className: string, name: string,
                      globals: Option<map<string, PluginClass>>, provider: Option<string>,
                      modules: map<string, map<string, PluginClass>>)
    ensures var r := RegisterSpec(dicts, dictName, key, className, name, globals, provider, modules);
            && (r.1 == Raised(NameError) <==> !Truthy(provider))
            && (r.1 != Raised(NameError) ==> r.0.Keys == dicts.Keys + {dictName})
            && (r.1 == Raised(NameError) ==> r.0 == dicts)
  {
  }

  /** No existing entry of any dictionary changes, and other consumers' dictionaries are untouched. */
  lemma RegisterKeeps(dicts: map<string, PluginDict>, dictName: string, key: string, className: string, name: string,
                      globals: Option<map<string, PluginClass>>, provider: Option<string>,
                      modules: map<string, map<string, PluginClass>>)
    ensures var r := RegisterSpec(dicts, dictName, key, className, name, globals, provider, modules);
            && (forall d, k :: d in dicts && k in dicts[d] ==> d in r.0 && k in r.0[d] && r.0[d][k] == dicts[d][k])
            && (forall d :: d in dicts && d != dictName ==> r.0[d] == dicts[d])
  {
  }

  /** Only a registration adds an entry, and only the one for the plugin's key, which was absent. */
  lemma RegisterOnlyAdds(dicts: map<string, PluginDict>, dictName: string, key: string, className: string, name: string,
                      globals: Option<map<string, PluginClass>>, provider: Option<string>,
                      modules: map<string, map<string, PluginClass>>)
    ensures var r := RegisterSpec(dicts, dictName, key, className, name, globals, provider, modules);
            && (r.1 != Registered ==> forall d :: d in r.0 ==> r.0[d] == if d in dicts then dicts[d] else map[])
            && (r.1 == Registered ==>
                  var before := if dictName in dicts then dicts[dictName] else map[];
                  key !in before && r.0[dictName].Keys == before.Keys + {key})
  {
  }

  /** The first registration of a key wins: a second one reports it and changes nothing. */
  lemma RegisterFirstWins(dicts: map<string, PluginDict>, dictName: string, key: string, className: string, name: string,
                      globals: Option<map<string, PluginClass>>, provider: Option<string>,
                      modules: map<string, map<string, PluginClass>>)
    requires Truthy(provider)
    requires dictName in dicts && key in dicts[dictName]
    ensures RegisterSpec(dicts, dictName, key, className, name, globals, provider, modules) == (dicts, AlreadyRegistered)
  {
    assert dicts[dictName := dicts[dictName]] == dicts;
  }

  /** Registering twice: the second call finds the first's entry and changes nothing. */
  lemma RegisterTwice(dicts: map<string, PluginDict>, dictName: string, key: string, className: string, name: string,
                      globals: Option<map<string, PluginClass>>, provider: Option<string>,
                      modules: map<string, map<string, PluginClass>>,
                      globals2: Option<map<string, PluginClass>>, modules2: map<string, map<string, PluginClass>>)
    requires RegisterSpec(dicts, dictName, key, className, name, globals, provider, modules).1 == Registered
    ensures var once := RegisterSpec(dicts, dictName, key, className, name, globals, provider, modules).0;
            RegisterSpec(once, dictName, key, className, name, globals2, provider, modules2) == (once, AlreadyRegistered)
  {
    var once := RegisterSpec(dicts, dictName, key, className, name, globals, provider, modules).0;
    RegisterFirstWins(once, dictName, key, className, name, globals2, provider, modules2);
  }

  /**
   * A class found in `globals` is registered from there and the modules are
   * never consulted; a `globals` without it raises KeyError.
   */
  lemma RegisterFromGlobals(dicts: map<string, PluginDict>, dictName: string, key: string, className: string, name: string,
                            g: map<string, PluginClass>, provider: Option<string>,
                            modules: map<string, map<string, PluginClass>>, modules2: map<string, map<string, PluginClass>>)
    requires Truthy(provider)
    requires dictName !in dicts || key !in dicts[dictName]
    ensures var r := RegisterSpec(dicts, dictName, key, className, name, Some(g), provider, modules);
            && r == RegisterSpec(dicts, dictName, key, className, name, Some(g), provider, modules2)
            && (className in g ==> r.1 == Registered && r.0[dictName][key] == g[className])
            && (className !in g ==> r.1 == Raised(KeyError))
  {
  }

  /** Without `globals` the class comes from the named module; a failed lookup only ensures the dictionary. */
  lemma RegisterFromModule(dicts: map<string, PluginDict>, dictName: string, key: string, className: string, name: string,
                           provider: Option<string>, modules: map<string, map<string, PluginClass>>)
    requires Truthy(provider)
    requires dictName !in dicts || key !in dicts[dictName]
    ensures var r := RegisterSpec(dicts, dictName, key, className, name, None, provider, modules);
            && (name in modules && className in modules[name] ==>
                  r.1 == Registered && r.0[dictName][key] == modules[name][className])
            && (!(name in modules && className in modules[name]) ==>
                  r.1 == LoadFailed && r.0 == dicts[dictName := if dictName in dicts then dicts[dictName] else map[]])
  {
  }

  /** A package's attributes, as far as plugin dictionaries go. */
  class Package {
    var dicts: map<string, PluginDict>

    constructor()
      ensures dicts == map[]
    {
      dicts := map[];
    }
  }

  /** registerPlugin(destpackage, consumer, name, globals, provider, suffix). */
  method RegisterPlugin(destpackage: Package, consumer: string, name: string,
                        globals: Option<map<string, PluginClass>>, provider: Option<string>,
                        suffix: string, modules: map<string, map<string, PluginClass>>)
    returns (outcome: Outcome)
    modifies destpackage
    ensures (destpackage.dicts, outcome)
            == RegisterSpec(old(destpackage.dicts), PluginDictName(consumer), PluginKey(name, suffix), LastComponent(name),
                            name, globals, provider, modules)
  {
    var className := LastComponent(name);
    var pluginName := RemoveAll(className, suffix);
    var pluginDictName := PluginDictName(consumer);
    outcome := RegisterNamed(destpackage, pluginDictName, pluginName, className, name, globals, provider, modules);
  }

  /** registerPlugin's body after the names are worked out. */
  method RegisterNamed(destpackage: Package, pluginDictName: string, pluginName: string, className: string, name: string,
                       globals: Option<map<string, PluginClass>>, provider: Option<string>,
                       modules: map<string, map<string, PluginClass>>)
    returns (outcome: Outcome)
    modifies destpackage
    ensures (destpackage.dicts, outcome)
            == RegisterSpec(old(destpackage.dicts), pluginDictName, pluginName, className, name, globals, provider, modules)
  {
    if !Truthy(provider) {
      return Raised(NameError);
    }
    if pluginDictName !in destpackage.dicts {
      destpackage.dicts := destpackage.dicts[pluginDictName := map[]];
    }
    var plugins := destpackage.dicts[pluginDictName];
    assert destpackage.dicts == old(destpackage.dicts)[pluginDictName := plugins];
    if pluginName in plugins {
      return AlreadyRegistered;
    }
    if globals.Some? {
      if className in globals.value {
        destpackage.dicts := destpackage.dicts[pluginDictName := plugins[pluginName := globals.value[className]]];
        return Registered;
      }
      return Raised(KeyError);
    }
    if name in modules && className in modules[name] {
      destpackage.dicts := destpackage.dicts[pluginDictName := plugins[pluginName := modules[name][className]]];
      return Registered;
    }
    return LoadFailed;
  }

  const RegistrationDict := "registrationPlugins"

  /** registerRegistrationPlugin: consumer "Registration", suffix "Plugin", provider "LandmarkRegistration" by default. */
  method RegisterRegistrationPlugin(destpackage: Package, name: string, globals: Option<map<string, PluginClass>>,
                                    provider: Option<string>, modules: map<string, map<string, PluginClass>>)
    returns (outcome: Outcome)
    modifies destpackage
    ensures (destpackage.dicts, outcome)
            == RegisterSpec(old(destpackage.dicts), RegistrationDict, PluginKey(name, "Plugin"), LastComponent(name),
                            name, globals, provider, modules)
    ensures outcome != Raised(NameError) ==> RegistrationDict in destpackage.dicts
  {
    outcome := RegisterPlugin(destpackage, "Registration", name, globals, provider, "Plugin", modules);
    RegistrationDictName();
    RegisterEnsuresDict(old(destpackage.dicts), RegistrationDict, PluginKey(name, "Plugin"), LastComponent(name),
                        name, globals, provider, modules);
  }

  /** `layout` with every item holding `w` removed, as QLayout.removeWidget does. */
  function Without(layout: seq<Frame>, w: Frame): (r: seq<Frame>)
    ensures forall x :: x in r <==> x in layout && x != w
  {
    if layout == [] then []
    else if layout[0] == w then Without(layout[1..], w)
    else [layout[0]] + Without(layout[1..], w)
  }

  /** The parent's layout after destroy's loop has removed the first widgets `ws`. */
  function Detached(layout: seq<Frame>, ws: seq<Frame>): seq<Frame> {
    if ws == [] then layout else Without(Detached(layout, ws[..|ws| - 1]), ws[|ws| - 1])
  }

  /** destroy takes exactly the plugin's widgets out of the parent's layout. */
  lemma {:induction false} DetachedSpec(layout: seq<Frame>, ws: seq<Frame>)
    ensures forall x :: x in Detached(layout, ws) <==> x in layout && x !in ws
  {
    if ws != [] {
      DetachedSpec(layout, ws[..|ws| - 1]);
      assert ws == ws[..|ws| - 1] + [ws[|ws| - 1]];
    }
  }

  /**
   * A plugin's widget state: the parent it builds into (None until create
   * makes one), the parent's layout, and the frames it tracks in `widgets`.
   */
  class RegistrationPlugin {
    var parent: Option<Frame>
    var layout: seq<Frame>
    var widgets: seq<Frame>

    constructor(parent: Option<Frame>, layout: seq<Frame>)
      ensures this.parent == parent && this.layout == layout && widgets == []
    {
      this.parent := parent;
      this.layout := layout;
      widgets := [];
    }

    /**
     * create: without a parent, use the fresh top-level widget `newParent`
     * with an empty layout; then add `frame` to the parent's layout and track it.
     */
    method Create(newParent: Frame, frame: Frame)
      modifies this
      ensures parent == if old(parent).None? then Some(newParent) else old(parent)
      ensures layout == (if old(parent).None? then [] else old(layout)) + [frame]
      ensures widgets == old(widgets) + [frame]
    {
      if parent.None? {
        parent := Some(newParent);
        layout := [];
      }
      layout := layout + [frame];
      widgets := widgets + [frame];
    }

    /** destroy: take every tracked widget out of the layout, then forget them all. */
    method Destroy()
      modifies this
      ensures widgets == []
      ensures layout == Detached(old(layout), old(widgets))
      ensures parent == old(parent)
    {
      var ws := widgets;
      for i := 0 to |ws|
        invariant layout == Detached(old(layout), ws[..i])
        invariant parent == old(parent)
      {
        assert ws[..i + 1][..i] == ws[..i];
        layout := Without(layout, ws[i]);
      }
      assert ws[..|ws|] == ws;
      widgets := [];
    }
  }
}
