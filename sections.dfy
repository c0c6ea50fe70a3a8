/**
 The shared roster: an ordered list of sections, each holding an ordered list of
 participant keys (the participant's colour), plus the reverse map from a
 participant to the section it is in.

 `KillSections` and `ReviveSections` are the two list rewrites a double click on
 a player performs; `SectionStore` stands for the application store, reduced to
 the two writes the player entity issues.
 */
module Sections {

  /** One roster section: its id and the colours of its members, in order. */
  datatype Section = Section(id: int, players: seq<string>)

  /** `players` without any entry equal to `color`, the rest in their order. */
  function Without(players: seq<string>, color: string): (r: seq<string>)
    ensures color !in r
    ensures forall p :: p in r ==> p in players
    ensures forall p :: p in players && p != color ==> p in r
    ensures |r| <= |players|
  {
    if players == [] then []
    else if players[0] == color then Without(players[1..], color)
    else [players[0]] + Without(players[1..], color)
  }

  /** The filter drops exactly the entries equal to `color`: every other key keeps its count. */
  lemma {:induction false} WithoutMultiset(players: seq<string>, color: string)
    ensures multiset(Without(players, color)) == multiset(players)[color := 0]
  {
    if players != [] {
      WithoutMultiset(players[1..], color);
      assert players == [players[0]] + players[1..];
    }
  }

  /** Filtering out a key that is not there gives back the same list. */
  lemma {:induction false} WithoutAbsent(players: seq<string>, color: string)
    requires color !in players
    ensures Without(players, color) == players
  {
    if players != [] {
      WithoutAbsent(players[1..], color);
      assert players == [players[0]] + players[1..];
    }
  }

  /** The filter keeps the order of the surviving entries: it distributes over concatenation. */
  lemma {:induction false} WithoutConcat(a: seq<string>, b: seq<string>, color: string)
    ensures Without(a + b, color) == Without(a, color) + Without(b, color)
  {
    if a != [] {
      assert (a + b)[1..] == a[1..] + b;
      WithoutConcat(a[1..], b, color);
    } else {
      assert a + b == b;
    }
  }

  /**
   Alive to dead: every section other than the dead one drops `color`, and the
   dead one gets `color` appended (with no check that it was already there).
   */
  function KillSection(s: Section, color: string, deadId: int): Section
  {
    if s.id != deadId then s.(players := Without(s.players, color))
    else s.(players := s.players + [color])
  }

  function KillSections(sections: seq<Section>, color: string, deadId: int): (r: seq<Section>)
    ensures |r| == |sections|
    ensures forall i :: 0 <= i < |sections| ==> r[i].id == sections[i].id
    ensures forall i :: 0 <= i < |sections| && sections[i].id == deadId ==>
      r[i].players == sections[i].players + [color]
    ensures forall i :: 0 <= i < |sections| && sections[i].id != deadId ==>
      r[i].players == Without(sections[i].players, color)
  {
    if sections == [] then []
    else [KillSection(sections[0], color, deadId)] + KillSections(sections[1..], color, deadId)
  }

  /**
   Dead to alive: the dead section drops `color`; otherwise the reset section
   gets `color` appended; every other section is copied. The dead test comes
   first, so a section whose id is both is only filtered.
   */
  function ReviveSection(s: Section, color: string, deadId: int, resetId: int): Section
  {
    if s.id == deadId then s.(players := Without(s.players, color))
    else if s.id == resetId then s.(players := s.players + [color])
    else s
  }

  function ReviveSections(sections: seq<Section>, color: string, deadId: int, resetId: int): (r: seq<Section>)
    ensures |r| == |sections|
    ensures forall i :: 0 <= i < |sections| ==> r[i].id == sections[i].id
    ensures forall i :: 0 <= i < |sections| && sections[i].id == deadId ==>
      r[i].players == Without(sections[i].players, color)
    ensures forall i :: 0 <= i < |sections| && sections[i].id != deadId && sections[i].id == resetId ==>
      r[i].players == sections[i].players + [color]
    ensures forall i :: 0 <= i < |sections| && sections[i].id != deadId && sections[i].id != resetId ==>
      r[i] == sections[i]
  {
    if sections == [] then []
    else [ReviveSection(sections[0], color, deadId, resetId)] + ReviveSections(sections[1..], color, deadId, resetId)
  }

  /**
   After the alive-to-dead rewrite the participant is in exactly the sections
   whose id is the dead id; each of those holds one more copy of it, and every
   other section holds none and is otherwise unchanged.
   */
  lemma KillSectionsMembership(sections: seq<Section>, color: string, deadId: int, i: int)
    requires 0 <= i < |sections|
    ensures var r := KillSections(sections, color, deadId);
      && (color in r[i].players <==> sections[i].id == deadId)
      && multiset(r[i].players) ==
         if sections[i].id == deadId then multiset(sections[i].players) + multiset{color}
         else multiset(sections[i].players)[color := 0]
  {
    WithoutMultiset(sections[i].players, color);
  }

  /**
   After the dead-to-alive rewrite the dead sections no longer hold the
   participant, a reset section (other than a dead one) holds one more copy, and
   every other section is unchanged.
   */
  lemma ReviveSectionsMembership(sections: seq<Section>, color: string, deadId: int, resetId: int, i: int)
    requires 0 <= i < |sections|
    ensures var r := ReviveSections(sections, color, deadId, resetId);
      && (sections[i].id == deadId ==>
            color !in r[i].players && multiset(r[i].players) == multiset(sections[i].players)[color := 0])
      && (sections[i].id != deadId && sections[i].id == resetId ==>
            color in r[i].players && multiset(r[i].players) == multiset(sections[i].players) + multiset{color})
      && (sections[i].id != deadId && sections[i].id != resetId ==> r[i] == sections[i])
  {
    WithoutMultiset(sections[i].players, color);
  }

  /** `color` occurs once in every section with id `home` and nowhere else. */
  predicate OnlyIn(sections: seq<Section>, color: string, home: int)
  {
    forall i :: 0 <= i < |sections| ==>
      multiset(sections[i].players)[color] == if sections[i].id == home then 1 else 0
  }

  /** Two rosters with the same ids in the same order and the same members per section. */
  predicate SameMembership(a: seq<Section>, b: seq<Section>)
  {
    && |a| == |b|
    && forall i :: 0 <= i < |a| ==> a[i].id == b[i].id && multiset(a[i].players) == multiset(b[i].players)
  }

  lemma RemoveOne(m: multiset<string>, color: string)
    requires m[color] == 1
    ensures m[color := 0] + multiset{color} == m
  {
  }

  lemma AddAbsent(m: multiset<string>, color: string)
    requires m[color] == 0
    ensures (m + multiset{color})[color := 0] == m
  {
  }

  /**
   Killing a participant who sits only in the reset section and then reviving
   it gives back the same membership in every section (the participant may
   have moved to the end of its section).
   */
  lemma KillThenRevive(sections: seq<Section>, color: string, deadId: int, resetId: int)
    requires deadId != resetId
    requires OnlyIn(sections, color, resetId)
    ensures SameMembership(ReviveSections(KillSections(sections, color, deadId), color, deadId, resetId), sections)
  {
    var k := KillSections(sections, color, deadId);
    var r := ReviveSections(k, color, deadId, resetId);
    forall i | 0 <= i < |sections|
      ensures multiset(r[i].players) == multiset(sections[i].players)
    {
      var p := sections[i].players;
      if sections[i].id == deadId {
        WithoutMultiset(p + [color], color);
        AddAbsent(multiset(p), color);
      } else if sections[i].id == resetId {
        WithoutMultiset(p, color);
        RemoveOne(multiset(p), color);
      } else {
        assert color !in p by { assert multiset(p)[color] == 0; }
        WithoutAbsent(p, color);
      }
    }
  }

  /**
   Reviving a participant who sits only in the dead section and then killing
   it gives back the same membership in every section.
   */
  lemma ReviveThenKill(sections: seq<Section>, color: string, deadId: int, resetId: int)
    requires deadId != resetId
    requires OnlyIn(sections, color, deadId)
    ensures SameMembership(KillSections(ReviveSections(sections, color, deadId, resetId), color, deadId), sections)
  {
    var v := ReviveSections(sections, color, deadId, resetId);
    var r := KillSections(v, color, deadId);
    forall i | 0 <= i < |sections|
      ensures multiset(r[i].players) == multiset(sections[i].players)
    {
      var p := sections[i].players;
      if sections[i].id == deadId {
        WithoutMultiset(p, color);
        RemoveOne(multiset(p), color);
      } else if sections[i].id == resetId {
        WithoutMultiset(p + [color], color);
        AddAbsent(multiset(p), color);
      } else {
        assert color !in p by { assert multiset(p)[color] == 0; }
        WithoutAbsent(p, color);
      }
    }
  }

  /**
   The application store, reduced to the parts the player entity reads and
   writes: the section list and the participant-to-section map.
   */
  class SectionStore {
    var sections: seq<Section>
    var playerSections: map<string, int>

    constructor (sections: seq<Section>, playerSections: map<string, int>)
      ensures this.sections == sections && this.playerSections == playerSections
    {
      this.sections := sections;
      this.playerSections := playerSections;
    }

    /** Replaces the whole section list. */
    method SetSections(sections: seq<Section>)
      modifies this
      ensures this.sections == sections
      ensures playerSections == old(playerSections)
    {
      this.sections := sections;
    }

    /** Points one participant at a new section. */
    method SetPlayerSection(player: string, newSection: int)
      modifies this
      ensures playerSections == old(playerSections)[player := newSection]
      ensures sections == old(sections)
    {
      playerSections := playerSections[player := newSection];
    }
  }
}
