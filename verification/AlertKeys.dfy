/** Track keys: a rule and a target joined by a bar, and the way back. */
module AlertKeys {
  type Key = string

  function KeyOf(rule: string, target: string): Key {
    rule + "|" + target
  }

  /** The part of a key before its first bar, the whole key when there is none. */
  function RuleOf(k: Key): string {
    if k == "" || k[0] == '|' then "" else [k[0]] + RuleOf(k[1..])
  }

  /** The scanning loop of splitKey. */
  method SplitKey(k: Key) returns (rule: string, target: string)
    ensures rule == RuleOf(k)
    ensures '|' !in rule
    ensures '|' in k ==> k == KeyOf(rule, target)
    ensures '|' !in k ==> rule == k && target == ""
  {
    for i := 0 to |k|
      invariant '|' !in k[..i]
      invariant RuleOf(k) == k[..i] + RuleOf(k[i..])
    {
      if k[i] == '|' {
        assert k == k[..i] + "|" + k[i + 1..];
        return k[..i], k[i + 1..];
      }
      assert k[i..] == [k[i]] + k[i + 1..];
    }
    assert k[..|k|] == k && k[|k|..] == "";
    return k, "";
  }

  /** The rule comes back out of a key exactly when it holds no bar itself. */
  lemma {:induction false} RuleComesBack(rule: string, target: string)
    ensures RuleOf(KeyOf(rule, target)) == rule <==> '|' !in rule
  {
    var k := KeyOf(rule, target);
    if rule != "" && rule[0] != '|' {
      assert k[0] == rule[0] && k[1..] == KeyOf(rule[1..], target);
      RuleComesBack(rule[1..], target);
      assert rule == [rule[0]] + rule[1..];
    }
  }

  /** Two bar-free rules never share a key, whatever bars their targets hold. */
  lemma KeysAreDistinct(rule: string, target: string, rule': string, target': string)
    requires '|' !in rule && '|' !in rule'
    requires KeyOf(rule, target) == KeyOf(rule', target')
    ensures rule == rule' && target == target'
  {
    RuleComesBack(rule, target);
    RuleComesBack(rule', target');
    var k := KeyOf(rule, target);
    assert k[|rule| + 1..] == target && KeyOf(rule', target')[|rule'| + 1..] == target';
  }
}
