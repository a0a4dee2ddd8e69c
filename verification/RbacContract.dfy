/** The RBAC contract and what the chain holds after a history of its calls. */
module RbacContract {

  type Address = string

  /** A 32-byte word; zero is the value of an absent mapping entry. */
  type Bytes32 = x: int | 0 <= x < 0x1_0000000000000000_0000000000000000_0000000000000000_0000000000000000

  datatype ChainEvent = RoleSet(agent: Address, roleId: Bytes32) | AgentRevoked(agent: Address)

  /** The role word the chain holds for an agent after a history of events. */
  function RoleAfter(log: seq<ChainEvent>, agent: Address): Bytes32 {
    if log == [] then 0
    else
      var last := log[|log| - 1];
      if last.agent != agent then RoleAfter(log[..|log| - 1], agent)
      else match last case RoleSet(_, roleId) => roleId case AgentRevoked(_) => 0
  }

  /** An agent is active exactly when the last event about it set a non-zero role. */
  lemma {:induction false} ActiveIffLastSet(log: seq<ChainEvent>, agent: Address)
    ensures RoleAfter(log, agent) != 0 <==>
            exists i :: 0 <= i < |log| && log[i].agent == agent && log[i].RoleSet? && log[i].roleId != 0 &&
                        forall j :: i < j < |log| ==> log[j].agent != agent
    decreases |log|
  {
    if log != [] {
      var init, last := log[..|log| - 1], log[|log| - 1];
      assert log == init + [last];
      if last.agent != agent {
        ActiveIffLastSet(init, agent);
        if RoleAfter(log, agent) != 0 {
          var i :| 0 <= i < |init| && init[i].agent == agent && init[i].RoleSet? && init[i].roleId != 0 &&
                   forall j :: i < j < |init| ==> init[j].agent != agent;
          assert log[i].agent == agent;
        }
        if i :| 0 <= i < |log| && log[i].agent == agent && log[i].RoleSet? && log[i].roleId != 0 &&
                forall j :: i < j < |log| ==> log[j].agent != agent {
          assert init[i].agent == agent;
        }
      }
    }
  }

  /** After a revocation the agent stays inactive until a non-zero role is set again. */
  lemma {:induction false} RevokedUntilSet(log: seq<ChainEvent>, agent: Address, j: nat)
    requires j < |log| && log[j] == AgentRevoked(agent)
    requires forall i :: j < i < |log| && log[i].agent == agent && log[i].RoleSet? ==> log[i].roleId == 0
    ensures RoleAfter(log, agent) == 0
    decreases |log|
  {
    if j < |log| - 1 {
      var init := log[..|log| - 1];
      assert forall i :: 0 <= i < |init| ==> init[i] == log[i];
      RevokedUntilSet(init, agent, j);
    }
  }

  ghost predicate LastAbout(log: seq<ChainEvent>, agent: Address, i: int) {
    0 <= i < |log| && log[i].agent == agent && forall j :: i < j < |log| ==> log[j].agent != agent
  }

  /** A history leaves an agent this word: the last event about it set the word, or revoked it, or there is none, and
      the word is zero. */
  ghost predicate LeavesWord(log: seq<ChainEvent>, agent: Address, word: Bytes32) {
    || (exists i :: LastAbout(log, agent, i) && log[i] == RoleSet(agent, word))
    || (word == 0 && exists i :: LastAbout(log, agent, i) && log[i] == AgentRevoked(agent))
    || (word == 0 && forall i :: 0 <= i < |log| ==> log[i].agent != agent)
  }

  lemma {:induction false} SomeLast(log: seq<ChainEvent>, agent: Address)
    ensures (exists i :: LastAbout(log, agent, i)) || forall i :: 0 <= i < |log| ==> log[i].agent != agent
    decreases |log|
  {
    if log != [] {
      var init, n := log[..|log| - 1], |log| - 1;
      if log[n].agent == agent {
        assert LastAbout(log, agent, n);
      } else {
        SomeLast(init, agent);
        if i :| LastAbout(init, agent, i) {
          assert LastAbout(log, agent, i);
        }
      }
    }
  }

  /** The word held is the one the last event about the agent set. */
  lemma {:induction false} LastEventDecides(log: seq<ChainEvent>, agent: Address, i: nat)
    requires LastAbout(log, agent, i)
    ensures RoleAfter(log, agent) == match log[i] case RoleSet(_, word) => word case AgentRevoked(_) => 0
    decreases |log|
  {
    if i < |log| - 1 {
      assert LastAbout(log[..|log| - 1], agent, i);
      LastEventDecides(log[..|log| - 1], agent, i);
    }
  }

  lemma {:induction false} NoEventNoRole(log: seq<ChainEvent>, agent: Address)
    requires forall i :: 0 <= i < |log| ==> log[i].agent != agent
    ensures RoleAfter(log, agent) == 0
    decreases |log|
  {
    if log != [] {
      NoEventNoRole(log[..|log| - 1], agent);
    }
  }

  /** The chain holds a word for an agent exactly when the history leaves it that word. */
  lemma WordIff(log: seq<ChainEvent>, agent: Address, word: Bytes32)
    ensures RoleAfter(log, agent) == word <==> LeavesWord(log, agent, word)
  {
    SomeLast(log, agent);
    if i :| LastAbout(log, agent, i) {
      LastEventDecides(log, agent, i);
      assert forall j :: LastAbout(log, agent, j) ==> j == i;
    } else {
      NoEventNoRole(log, agent);
    }
  }

  class RBAC {
    const proxy: Address
    var agentRoles: map<Address, Bytes32>
    /** The events emitted so far. */
    ghost var log: seq<ChainEvent>

    /** Reading the mapping; absent entries read as zero. */
    function Read(agent: Address): Bytes32
      reads this
    {
      if agent in agentRoles then agentRoles[agent] else 0
    }

    ghost predicate Valid()
      reads this
    {
      forall agent :: Read(agent) == RoleAfter(log, agent)
    }

    constructor (sender: Address)
      ensures Valid() && proxy == sender && log == []
    {
      proxy, agentRoles, log := sender, map[], [];
    }

    /** Reverts unless the proxy calls. */
    method SetAgentRole(sender: Address, agent: Address, roleId: Bytes32) returns (reverted: bool)
      requires Valid()
      modifies this
      ensures Valid() && reverted == (sender != proxy)
      ensures log == if reverted then old(log) else old(log) + [RoleSet(agent, roleId)]
      ensures reverted ==> unchanged(this)
      ensures !reverted ==> Read(agent) == roleId && forall other :: other != agent ==> Read(other) == old(Read(other))
    {
      if sender != proxy {
        return true;
      }
      agentRoles := agentRoles[agent := roleId];
      log := log + [RoleSet(agent, roleId)];
      return false;
    }

    method EmergencyRevoke(sender: Address, agent: Address) returns (reverted: bool)
      requires Valid()
      modifies this
      ensures Valid() && reverted == (sender != proxy)
      ensures log == if reverted then old(log) else old(log) + [AgentRevoked(agent)]
      ensures reverted ==> unchanged(this)
      ensures !reverted ==> Read(agent) == 0 && forall other :: other != agent ==> Read(other) == old(Read(other))
    {
      if sender != proxy {
        return true;
      }
      agentRoles := agentRoles - {agent};
      log := log + [AgentRevoked(agent)];
      return false;
    }

    method GetAgentRole(agent: Address) returns (roleId: Bytes32, isActive: bool)
      requires Valid()
      ensures roleId == (if agent in agentRoles then agentRoles[agent] else 0) && LeavesWord(log, agent, roleId)
      ensures isActive <==> roleId != 0
    {
      roleId := Read(agent);
      WordIff(log, agent, roleId);
      isActive := roleId != 0;
    }
  }
}
