/**
 * Locating a MicroPython actor (libmpy/cc_actor_mpy.c): an actor type such
 * as "std.Identity" names the module file "actors/std/Identity" plus an
 * extension, and the class "Identity" after the type's last '.'.
 *
 * Loading the module and calling into the interpreter are outside the
 * model.
 */
module CcActorMpy {
  import opened Wrappers
  import opened Machine
  import opened Text

  /** `CC_ACTOR_MODULES_DIR` as the configuration header sets it. */
  const ModulesDir := "mpys/"
  const ActorsDir := "actors/"

  /** `s` with every '.' turned into '/'. */
  function SlashDots(s: string): (r: string)
    ensures |r| == |s| && '.' !in r
    ensures forall i | 0 <= i < |s| && s[i] != '.' :: r[i] == s[i]
  {
    seq(|s|, i requires 0 <= i < |s| => if s[i] == '.' then '/' else s[i])
  }

  /** The directory part of the path: the modules directory when asked for, "actors/" and the first `typeLen` characters of the type. */
  function PathBase(actorType: string, typeLen: nat, addModulesDir: bool): string
  {
    (if addModulesDir then ModulesDir else "") + ActorsDir + Prefix(actorType, typeLen)
  }

  /**
   * `cc_actor_mpy_get_path_from_type`: the buffer of `len` characters is
   * filled with the base, every '.' in it becomes '/', and the extension
   * is appended after that, so its own '.' stays. `allocOk` is whether the
   * buffer could be allocated; None is the NULL result.
   */
  method PathFromType(actorType: string, typeLen: nat, extension: string, addModulesDir: bool, allocOk: bool)
    returns (path: Option<string>, len: nat)
    ensures len == (if addModulesDir then |ModulesDir| else 0) + |ActorsDir| + typeLen + |extension| + 1
    ensures path.Some? <==> allocOk
    ensures path.Some? ==> path.value == SlashDots(PathBase(actorType, typeLen, addModulesDir)) + extension
  {
    len := (if addModulesDir then |ModulesDir| else 0) + |ActorsDir| + typeLen + |extension| + 1;
    if !allocOk {
      return None, len;
    }
    var p := PathBase(actorType, typeLen, addModulesDir);
    ghost var base := p;
    var i := 0;
    while i < |p|
      invariant 0 <= i <= |p| == |base|
      invariant forall j | 0 <= j < i :: p[j] == SlashDots(base)[j]
      invariant forall j | i <= j < |p| :: p[j] == base[j]
    {
      if p[i] == '.' {
        p := p[i := '/'];
      }
      i := i + 1;
    }
    assert p == SlashDots(base);
    path := Some(p + extension);
  }

  /** The path and its terminating NUL fit in the buffer, exactly when the type has at least `typeLen` characters. */
  lemma PathFits(actorType: string, typeLen: nat, extension: string, addModulesDir: bool)
    ensures var len := (if addModulesDir then |ModulesDir| else 0) + |ActorsDir| + typeLen + |extension| + 1;
      var path := SlashDots(PathBase(actorType, typeLen, addModulesDir)) + extension;
      |path| + 1 <= len && (|path| + 1 == len <==> |actorType| >= typeLen)
  {
  }

  /** For "std.Identity" and ".mpy" the path is "mpys/actors/std/Identity.mpy". */
  lemma PathExample()
    ensures SlashDots(PathBase("std.Identity", 12, true)) + ".mpy" == "mpys/actors/std/Identity.mpy"
  {
    var s := SlashDots(PathBase("std.Identity", 12, true));
    assert PathBase("std.Identity", 12, true) == "mpys/actors/std.Identity";
    assert s[15] == '/';
    assert s == "mpys/actors/std/Identity";
  }

  /** The last '.' before `pos`. */
  function LastDot(s: string, pos: nat): (r: Option<nat>)
    requires pos <= |s|
    ensures r.Some? ==> (r.value < pos && s[r.value] == '.' && forall j | r.value < j < pos :: s[j] != '.')
    ensures r.None? ==> forall j | 0 <= j < pos :: s[j] != '.'
  {
    if pos == 0 then None
    else if s[pos - 1] == '.' then Some(pos - 1)
    else LastDot(s, pos - 1)
  }

  /** The class an actor type names: what follows the last '.' of "actors." and the type. */
  function ClassName(actorType: string): (r: string)
    ensures '.' !in r && |r| <= |actorType| && r == actorType[|actorType| - |r|..]
  {
    var t := "actors." + actorType;
    assert t[6] == '.';
    var p := LastDot(t, |t|).value;
    assert t[p + 1..] == actorType[p - 6..];
    t[p + 1..]
  }

  /**
   * The class name as `cc_actor_mpy_init_from_type` finds it: the scan
   * position and the class length are uint8_t, so the scan starts at the
   * length of "actors." and the type taken mod 256; None is the failure
   * when it finds no '.'.
   */
  function ClassNameAsWritten(actorType: string): (r: Option<string>)
  {
    var t := "actors." + actorType;
    var start := |t| % U8;
    match LastDot(t, start)
    case None => None
    case Some(p) => Some(t[p + 1..start])
  }

  /** The class-name loop of `cc_actor_mpy_init_from_type`, with its uint8_t position and length. */
  method FindClassName(actorType: string) returns (r: Option<string>)
    ensures r == ClassNameAsWritten(actorType)
  {
    var t := "actors." + actorType;
    var pos: u8 := (|t| % U8) as u8;
    var classLen: u8 := 0;
    while pos > 0
      invariant pos as int + classLen as int == |t| % U8
      invariant LastDot(t, |t| % U8) == LastDot(t, pos as int)
    {
      pos := pos - 1;
      if t[pos] == '.' {
        return Some(t[pos as int + 1..pos as int + 1 + classLen as int]);
      }
      classLen := classLen + 1;
    }
    return None;
  }

  /** The class is the type's last dotted component, or the whole type when it has no '.'. */
  lemma ClassNameIsLastComponent(prefix: string, name: string)
    requires '.' !in name
    ensures ClassName(prefix + "." + name) == name
    ensures '.' !in prefix ==> ClassName(prefix + name) == prefix + name
  {
    var t := "actors." + (prefix + "." + name);
    assert t == ("actors." + prefix + ".") + name;
    LastDotAt(t, |t|, 7 + |prefix|);
    assert t[8 + |prefix|..] == name;
    if '.' !in prefix {
      var u := "actors." + (prefix + name);
      LastDotAt(u, |u|, 6);
      assert u[7..] == prefix + name;
    }
  }

  lemma {:induction false} LastDotAt(s: string, pos: nat, p: nat)
    requires p < pos <= |s| && s[p] == '.'
    requires forall j | p < j < pos :: s[j] != '.'
    ensures LastDot(s, pos) == Some(p)
    decreases pos
  {
    if pos - 1 != p {
      LastDotAt(s, pos - 1, p);
    }
  }

  /** Below 256 characters the uint8_t scan finds the intended class. */
  lemma ClassNameAsWrittenShort(actorType: string)
    requires |"actors." + actorType| < U8
    ensures ClassNameAsWritten(actorType) == Some(ClassName(actorType))
  {
    var t := "actors." + actorType;
    assert t[6] == '.';
    assert |t| % U8 == |t|;
    var p := LastDot(t, |t|).value;
    assert t[p + 1..|t|] == t[p + 1..];
  }

  /** A type of 249 characters without '.' makes "actors." plus the type 256 long: the scan starts at 0 and finds no class. */
  lemma ClassNameAsWrittenLong()
    ensures var a := seq(249, _ => 'a');
      ClassNameAsWritten(a) == None && ClassName(a) == a
  {
    var a := seq(249, _ => 'a');
    assert '.' !in a;
    ClassNameIsLastComponent([], a);
    assert [] + a == a;
  }
}
