/** The decision and string logic of MarriageBot's information commands:
    `partner`, `children`, `parent`, `treefile`, and the `tree`/`globaltree`
    commands' shared `treemaker`. The family lookup, the tree builder and
    display names come from code outside this model and enter as values
    or function parameters. */
module Information {
  import opened Wrappers
  import opened Text

  // ---------------------------------------------------------------------
  // Depth handling in `treemaker`
  // ---------------------------------------------------------------------

  /** The depth that means "no limit". */
  const UNBOUNDED: int := -1

  /** A requested depth of zero or less becomes the unbounded sentinel;
      a positive depth is kept. */
  function NormaliseDepth(depth: int): (d: int)
    ensures d == UNBOUNDED || d > 0
    ensures depth > 0 ==> d == depth
    ensures depth <= 0 ==> d == UNBOUNDED
  {
    if depth <= 0 then UNBOUNDED else depth
  }

  // ---------------------------------------------------------------------
  // The tree command
  // ---------------------------------------------------------------------

  /** The relations `FamilyTreeMember.get` exposes for one user. */
  datatype FamilyView = FamilyView(children: seq<nat>, partner: Option<nat>, parent: Option<nat>)

  /** The "no family" test: no child, no partner and no parent. */
  predicate HasNoFamily(tree: FamilyView)
  {
    tree.children == [] && tree.partner.None? && tree.parent.None?
  }

  /** The arguments of the call `to_tree_string(ctx, expand_backwards, depth, all_guilds)`. */
  datatype TreeCall = TreeCall(expandBackwards: int, depth: int, allGuilds: bool)

  /** What `to_tree_string` returns: the root it settled on (its id, its
      `str` form and its display name) and the tree text. */
  datatype TreeString = TreeString(rootId: nat, rootDisplay: string, rootName: string, text: string)

  /** The files and the two external process invocations of one render:
      the converter writes its standard output to `converterOutput`. */
  datatype RenderPlan = RenderPlan(
    textPath: string, dotPath: string, pngPath: string, text: string,
    converterArgs: seq<string>, converterOutput: string, rasterArgs: seq<string>)

  /** The reply to a tree request. */
  datatype TreeReply = NoFamily(message: string) | Image(plan: RenderPlan)

  /** The outcome of `treemaker`: the tree-builder call it made, if any,
      and its reply. */
  datatype TreeOutcome = TreeOutcome(call: Option<TreeCall>, reply: TreeReply)

  function NoFamilyMessage(display: string): string
  {
    "`" + display + "` has no family to put into a tree .-."
  }

  /** `./trees/{root.id}` followed by an extension. */
  function ArtifactPath(rootId: nat, ext: string): string
  {
    "./trees/" + NatToString(rootId) + ext
  }

  predicate IsArtifactExtension(ext: string)
  {
    ext == ".txt" || ext == ".dot" || ext == ".png"
  }

  /** Artifact paths are keyed by the root id and the extension and by
      nothing else: two paths coincide exactly when both agree. */
  lemma ArtifactPathKeyedById(a: nat, b: nat, extA: string, extB: string)
    requires IsArtifactExtension(extA) && IsArtifactExtension(extB)
    ensures ArtifactPath(a, extA) == ArtifactPath(b, extB) <==> a == b && extA == extB
  {
    if ArtifactPath(a, extA) == ArtifactPath(b, extB) {
      var p := ArtifactPath(a, extA);
      var sa, sb := NatToString(a), NatToString(b);
      assert |sa| == |sb|;
      assert sa == p[8..8 + |sa|] == sb;
      NatToStringInjective(a, b);
      assert extA == p[8 + |sa|..] == extB;
    }
  }

  /** Python's `s.replace(c, d)` for single characters. */
  function Replace(s: string, from: char, to: char): (r: string)
    ensures |r| == |s|
    ensures forall i :: 0 <= i < |s| ==> r[i] == (if s[i] == from then to else s[i])
    decreases |s|
  {
    if s == [] then [] else [if s[0] == from then to else s[0]] + Replace(s[1..], from, to)
  }

  /** The root label handed to the converter: both parentheses replaced by `_`. */
  function SanitiseLabel(name: string): (r: string)
    ensures |r| == |name|
    ensures '(' !in r && ')' !in r
    ensures forall i :: 0 <= i < |name| && r[i] != name[i] ==> (name[i] == '(' || name[i] == ')') && r[i] == '_'
    ensures forall i :: 0 <= i < |name| && (name[i] == '(' || name[i] == ')') ==> r[i] == '_'
  {
    Replace(Replace(name, '(', '_'), ')', '_')
  }

  /** A label without parentheses passes through unchanged. */
  lemma SanitiseKeepsCleanLabel(name: string)
    requires '(' !in name && ')' !in name
    ensures SanitiseLabel(name) == name
  {
  }

  /** The render steps for a built tree: the tree text goes to the `.txt`
      file, the converter reads it with the sanitised root label and writes
      the `.dot` file, and `dot` turns that into the `.png` file. */
  function RenderPlanFor(built: TreeString): (p: RenderPlan)
    ensures p.textPath == ArtifactPath(built.rootId, ".txt")
    ensures p.dotPath == ArtifactPath(built.rootId, ".dot")
    ensures p.pngPath == ArtifactPath(built.rootId, ".png")
    ensures p.textPath != p.dotPath && p.dotPath != p.pngPath && p.textPath != p.pngPath
    ensures p.text == built.text
    ensures |p.converterArgs| == 5 && p.converterArgs[4] == p.textPath && p.converterOutput == p.dotPath
    ensures p.converterArgs[3] == SanitiseLabel(built.rootName)
    ensures '(' !in p.converterArgs[3] && ')' !in p.converterArgs[3]
    ensures |p.rasterArgs| == 8 && p.rasterArgs[2] == p.dotPath && p.rasterArgs[4] == p.pngPath
  {
    var textPath := ArtifactPath(built.rootId, ".txt");
    var dotPath := ArtifactPath(built.rootId, ".dot");
    var pngPath := ArtifactPath(built.rootId, ".png");
    ArtifactPathKeyedById(built.rootId, built.rootId, ".txt", ".dot");
    ArtifactPathKeyedById(built.rootId, built.rootId, ".dot", ".png");
    ArtifactPathKeyedById(built.rootId, built.rootId, ".txt", ".png");
    RenderPlan(
      textPath, dotPath, pngPath, built.text,
      ["python3.6", "./cogs/utils/family_tree/familytreemaker.py", "-a", SanitiseLabel(built.rootName), textPath],
      dotPath,
      ["dot", "-Tpng", dotPath, "-o", pngPath, "-Gcharset=UTF-8", "-Gsize=200\\!", "-Gdpi=100"])
  }

  /** `treemaker(ctx, root, depth, all_guilds)`: answer "no family" for a
      user without relations; otherwise ask the tree builder for a tree
      `depth` generations up and twice that down, and render it unless
      the text comes back empty. */
  function Treemaker(tree: FamilyView, rootDisplay: string, depth: int, allGuilds: bool,
                     toTreeString: TreeCall -> TreeString): (o: TreeOutcome)
    ensures HasNoFamily(tree) <==> o.call.None?
    ensures HasNoFamily(tree) ==> o.reply == NoFamily(NoFamilyMessage(rootDisplay))
    ensures o.call.Some? ==> o.call.value.expandBackwards == NormaliseDepth(depth)
    ensures o.call.Some? ==> o.call.value.depth == 2 * o.call.value.expandBackwards
    ensures o.call.Some? ==> o.call.value.allGuilds == allGuilds
    ensures o.reply.Image? <==> o.call.Some? && toTreeString(o.call.value).text != ""
    ensures o.call.Some? && o.reply.NoFamily? ==>
              o.reply.message == NoFamilyMessage(toTreeString(o.call.value).rootDisplay)
    ensures o.reply.Image? ==> o.reply.plan == RenderPlanFor(toTreeString(o.call.value))
  {
    if HasNoFamily(tree) then
      TreeOutcome(None, NoFamily(NoFamilyMessage(rootDisplay)))
    else
      var d := NormaliseDepth(depth);
      var call := TreeCall(d, d * 2, allGuilds);
      var built := toTreeString(call);
      if built.text == "" then
        TreeOutcome(Some(call), NoFamily(NoFamilyMessage(built.rootDisplay)))
      else
        TreeOutcome(Some(call), Image(RenderPlanFor(built)))
  }

  /** `treefile`: the name of the genealogy file sent for a root. */
  function GedcomFileName(rootId: nat): string
  {
    "Tree of " + NatToString(rootId) + ".ged"
  }

  /** Different roots get differently named genealogy files. */
  lemma GedcomFileNameKeyedById(a: nat, b: nat)
    ensures GedcomFileName(a) == GedcomFileName(b) <==> a == b
  {
    if GedcomFileName(a) == GedcomFileName(b) {
      var f := GedcomFileName(a);
      var sa, sb := NatToString(a), NatToString(b);
      assert |sa| == |sb|;
      assert sa == f[8..8 + |sa|] == sb;
      NatToStringInjective(a, b);
    }
  }

  // ---------------------------------------------------------------------
  // The partner, parent and children replies
  // ---------------------------------------------------------------------

  /** A name between backticks, as the replies show it. */
  function Quote(s: string): string
  {
    "`" + s + "`"
  }

  /** `partner`: either "not currently married" or the partner's name.
      `nameOf(id)` stands for `str(bot.get_user(id))`. */
  function PartnerReply(user: string, partner: Option<nat>, nameOf: nat -> string): (r: string)
    ensures partner.None? ==> r == Quote(user) + " is not currently married."
    ensures partner.Some? ==> r == Quote(user) + " is currently married to " + Quote(nameOf(partner.value)) + "."
  {
    match partner
    case None => Quote(user) + " is not currently married."
    case Some(p) => Quote(user) + " is currently married to " + Quote(nameOf(p)) + "."
  }

  /** The two partner replies can be told apart: a married user never gets
      the "not married" text. */
  lemma PartnerReplyDecides(user: string, partner: Option<nat>, nameOf: nat -> string)
    ensures PartnerReply(user, partner, nameOf) == Quote(user) + " is not currently married." <==> partner.None?
  {
  }

  /** `parent`: either "has no parent" or the parent's name. */
  function ParentReply(user: string, parent: Option<nat>, nameOf: nat -> string): (r: string)
    ensures parent.None? ==> r == Quote(user) + " has no parent."
    ensures parent.Some? ==> r == Quote(user) + "'s parent is " + Quote(nameOf(parent.value)) + "."
  {
    match parent
    case None => Quote(user) + " has no parent."
    case Some(p) => Quote(user) + "'s parent is " + Quote(nameOf(p)) + "."
  }

  /** A user with a parent never gets the "no parent" text. */
  lemma ParentReplyDecides(user: string, parent: Option<nat>, nameOf: nat -> string)
    ensures ParentReply(user, parent, nameOf) == Quote(user) + " has no parent." <==> parent.None?
  {
  }

  /** The display names of the children, in stored order. */
  function ChildNames(children: seq<nat>, nameOf: nat -> string): (names: seq<string>)
    ensures |names| == |children|
    ensures forall i :: 0 <= i < |children| ==> names[i] == nameOf(children[i])
  {
    seq(|children|, i requires 0 <= i < |children| => nameOf(children[i]))
  }

  /** Each name between backticks. */
  function Quoted(names: seq<string>): (q: seq<string>)
    ensures |q| == |names|
    ensures forall i :: 0 <= i < |names| ==> q[i] == Quote(names[i])
  {
    seq(|names|, i requires 0 <= i < |names| => Quote(names[i]))
  }

  /** The list part of the children reply: quoted names joined by ", ". */
  function ChildList(names: seq<string>): string
  {
    Join(", ", Quoted(names))
  }

  /** "child" or "children" for a count. */
  function ChildWord(count: nat): (w: string)
    ensures count == 1 ==> w == "child"
    ensures count != 1 ==> w == "children"
  {
    "child" + (if count == 1 then "" else "ren")
  }

  /** `children`: "has no children right now" for none, otherwise the
      count, the agreeing noun and the list of names. */
  function ChildrenReply(user: string, children: seq<nat>, nameOf: nat -> string): (r: string)
    ensures children == [] ==> r == Quote(user) + " has no children right now."
    ensures children != [] ==>
              r == Quote(user) + " has " + Quote(NatToString(|children|)) + " " + ChildWord(|children|)
                   + ": " + ChildList(ChildNames(children, nameOf))
  {
    if |children| == 0 then Quote(user) + " has no children right now."
    else
      Quote(user) + " has " + Quote(NatToString(|children|)) + " " + ChildWord(|children|) + ": "
        + ChildList(ChildNames(children, nameOf))
  }

  /** A user with children never gets the "no children" text. */
  lemma ChildrenReplyDecides(user: string, children: seq<nat>, nameOf: nat -> string)
    ensures ChildrenReply(user, children, nameOf) == Quote(user) + " has no children right now." <==> children == []
  {
    if children != [] {
      var r := ChildrenReply(user, children, nameOf);
      var k := |user| + 7;
      assert r[k] == '`';
      assert (Quote(user) + " has no children right now.")[k] == 'n';
    }
  }

  /** Position of the first backtick in `t`, or `|t|` when there is none. */
  function NextTick(t: string): (k: nat)
    ensures k <= |t|
    ensures k < |t| ==> t[k] == '`'
    ensures forall i :: 0 <= i < k ==> t[i] != '`'
    decreases |t|
  {
    if t == [] || t[0] == '`' then 0 else 1 + NextTick(t[1..])
  }

  /** Reads a children list back: quoted names separated by ", ". */
  function ParseChildList(s: string): Option<seq<string>>
    decreases |s|
  {
    if |s| == 0 || s[0] != '`' then None
    else
      var k := NextTick(s[1..]);
      if k == |s| - 1 then None
      else
        var name := s[1..k + 1];
        var rest := s[k + 2..];
        if rest == [] then Some([name])
        else if |rest| >= 2 && rest[..2] == ", " then
          match ParseChildList(rest[2..])
          case None => None
          case Some(more) => Some([name] + more)
        else None
  }

  /** The children list names every child, in stored order, separated by
      ", ": reading it back gives the names again (for names without
      backticks). */
  lemma {:induction false} ChildListRoundTrip(names: seq<string>)
    requires names != []
    requires forall i :: 0 <= i < |names| ==> '`' !in names[i]
    ensures ParseChildList(ChildList(names)) == Some(names)
    decreases |names|
  {
    var n0 := names[0];
    var tail := if |names| == 1 then "" else ", " + ChildList(names[1..]);
    var s := ChildList(names);
    if |names| > 1 {
      assert Quoted(names)[1..] == Quoted(names[1..]);
    }
    assert s == "`" + n0 + "`" + tail;
    var t := s[1..];
    assert t == n0 + "`" + tail;
    assert t[|n0|] == '`';
    assert forall i :: 0 <= i < |n0| ==> t[i] == n0[i];
    var k := NextTick(t);
    assert k == |n0|;
    assert s[1..k + 1] == n0;
    assert s[k + 2..] == tail;
    assert s[0] == '`' && k != |s| - 1;
    if |names| == 1 {
      assert ParseChildList(s) == Some([n0]);
      assert [n0] == names;
    } else {
      assert tail[..2] == ", ";
      assert tail[2..] == ChildList(names[1..]);
      ChildListRoundTrip(names[1..]);
      assert ParseChildList(s) == Some([n0] + names[1..]);
      assert [n0] + names[1..] == names;
    }
  }
}
