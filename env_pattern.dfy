/** `env_pattern.findall(value)` for the pattern `.*?\${(.*?)}.*?` of
    megatron/training/yaml_arguments.py, written as a scanner.

    From a scan position the leftmost match takes the first `${` whose group
    closes: the lazy `(.*?)` runs to the first `}` and cannot pass a line break
    (`.` does not match `\n`), and the trailing `.*?` matches nothing, so the
    scan resumes just after that `}`. */
module EnvPattern {
  import opened Wrappers
  import opened PyStrings

  /** Text the group can span: no `}` and no line break. */
  predicate Plain(t: string)
  {
    forall k :: 0 <= k < |t| ==> t[k] != '}' && t[k] != '\n'
  }

  /** The literal `${name}` that `env_constructor` replaces. */
  function Placeholder(name: string): string
  {
    "${" + name + "}"
  }

  /** Where the group starting at `i` closes, if it closes before a line break. */
  function CloseAt(s: string, i: nat): (r: Option<nat>)
    requires i <= |s|
    ensures r.Some? ==> i <= r.value < |s| && s[r.value] == '}' && Plain(s[i..r.value])
    ensures r.None? ==> forall j :: i <= j < |s| && s[j] == '}' ==> !Plain(s[i..j])
    decreases |s| - i
  {
    if i == |s| then None
    else if s[i] == '}' then Some(i)
    else if s[i] == '\n' then None
    else CloseAt(s, i + 1)
  }

  /** The first `}` that the group may reach is the one `CloseAt` finds. */
  lemma CloseAtFirst(s: string, i: nat, j: nat)
    requires i <= j < |s| && s[j] == '}' && Plain(s[i..j])
    ensures CloseAt(s, i) == Some(j)
  {
  }

  /** A match of the pattern begins with the `${` at index `q`. */
  predicate OpensAt(s: string, q: nat)
  {
    q + 2 <= |s| && s[q] == '$' && s[q + 1] == '{' && CloseAt(s, q + 2).Some?
  }

  /** The groups `findall` returns when scanning from `pos`: each is plain
      text whose placeholder occurs in `s`, and there are none exactly when no
      match begins at or after `pos`. */
  function FindAllFrom(s: string, pos: nat): (groups: seq<string>)
    requires pos <= |s|
    ensures forall k :: 0 <= k < |groups| ==> Plain(groups[k]) && Contains(s, Placeholder(groups[k]))
    ensures groups == [] <==> forall q :: pos <= q < |s| ==> !OpensAt(s, q)
    decreases |s| - pos
  {
    if pos == |s| then []
    else if OpensAt(s, pos) then
      var j := CloseAt(s, pos + 2).value;
      var g := s[pos + 2..j];
      assert OccursAt(s, Placeholder(g), pos) by {
        assert s[pos..j + 1] == "${" + g + "}";
      }
      [g] + FindAllFrom(s, j + 1)
    else FindAllFrom(s, pos + 1)
  }

  /** The scan takes the leftmost match at or after `pos`: the match that
      opens at the least `q` yields the group `s[q + 2..j]`, closed by the
      `}` at `j`, and the scan goes on from `j + 1`. With `FindAllEmptyIff`
      this fixes every group `findall` returns, and their order. */
  lemma {:induction false} FindAllFromLeftmost(s: string, pos: nat, q: nat)
    requires pos <= q && OpensAt(s, q)
    requires forall p :: pos <= p < q ==> !OpensAt(s, p)
    ensures var j := CloseAt(s, q + 2).value;
      FindAllFrom(s, pos) == [s[q + 2..j]] + FindAllFrom(s, j + 1)
    decreases q - pos
  {
    if pos < q {
      assert !OpensAt(s, pos);
      FindAllFromLeftmost(s, pos + 1, q);
    }
  }

  /** `env_pattern.findall(value)`: every group is plain text whose
      placeholder occurs in the scalar. */
  function FindAll(s: string): (groups: seq<string>)
    ensures forall k :: 0 <= k < |groups| ==> Plain(groups[k]) && Contains(s, Placeholder(groups[k]))
  {
    FindAllFrom(s, 0)
  }

  /** An occurrence of `${name}` with a plain name is where a match begins. */
  lemma PlaceholderOpens(s: string, name: string, q: nat)
    requires Plain(name) && OccursAt(s, Placeholder(name), q)
    ensures OpensAt(s, q)
  {
    var j := q + 2 + |name|;
    var p := Placeholder(name);
    assert s[q..q + |p|] == p;
    assert |p| == |name| + 3;
    assert s[q + 2..j] == name by {
      forall k | 0 <= k < |name| ensures s[q + 2..j][k] == name[k] {
        assert s[q + 2..j][k] == s[q..q + |p|][k + 2] == p[k + 2];
      }
    }
    assert s[j] == '}';
    CloseAtFirst(s, q + 2, j);
  }

  /** `findall` finds nothing exactly when no `${name}` with a plain name
      occurs in the text. */
  lemma FindAllEmptyIff(s: string)
    ensures FindAll(s) == [] <==> forall name :: Plain(name) ==> !Contains(s, Placeholder(name))
  {
    if FindAll(s) == [] {
      forall name | Plain(name) ensures !Contains(s, Placeholder(name)) {
        if Contains(s, Placeholder(name)) {
          var q :| 0 <= q <= |s| - |Placeholder(name)| && OccursAt(s, Placeholder(name), q);
          PlaceholderOpens(s, name, q);
        }
      }
    } else {
      var g := FindAll(s)[0];
      assert Plain(g) && Contains(s, Placeholder(g));
    }
  }

  /** A text that starts with one placeholder and has no further `$` yields
      exactly that placeholder's name. */
  lemma FindAllLeadingPlaceholder(name: string, tail: string)
    requires Plain(name)
    requires forall k :: 0 <= k < |tail| ==> tail[k] != '$'
    ensures FindAll(Placeholder(name) + tail) == [name]
  {
    var s := Placeholder(name) + tail;
    var j := |name| + 2;
    assert s[2..j] == name;
    CloseAtFirst(s, 2, j);
    assert OpensAt(s, 0);
    forall q | j + 1 <= q < |s| ensures !OpensAt(s, q) {
      assert s[q] == tail[q - j - 1];
    }
    assert FindAllFrom(s, j + 1) == [];
  }
}
