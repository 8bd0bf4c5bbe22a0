/** `IconManager.changeIcon`: the launcher icon is chosen by enabling one
    activity alias and disabling the others. */
module IconManager {

  const Aliases: seq<string> := [
    "mx.valdora.vmusic.MainActivityDefault",
    "mx.valdora.vmusic.MainActivityWhite",
    "mx.valdora.vmusic.MainActivityBlack"
  ]

  /** `COMPONENT_ENABLED_STATE_ENABLED` and `COMPONENT_ENABLED_STATE_DISABLED`. */
  datatype ComponentState = Enabled | Disabled

  /** One `setComponentEnabledSetting` call (always with `DONT_KILL_APP`). */
  datatype Write = Write(alias: string, state: ComponentState)

  /** The positions of the writes that enable their alias. */
  function EnabledAt(writes: seq<Write>): (r: set<int>)
    ensures forall i :: i in r <==> 0 <= i < |writes| && writes[i].state == Enabled
  {
    set i | 0 <= i < |writes| && writes[i].state == Enabled
  }

  /** The calls `changeIcon(iconIndex)` makes, in order. */
  method ChangeIcon(iconIndex: int) returns (writes: seq<Write>)
    ensures |writes| == |Aliases|
    ensures forall i :: 0 <= i < |writes| ==> writes[i].alias == Aliases[i]
    ensures forall i, j :: 0 <= i < j < |writes| ==> writes[i].alias != writes[j].alias
    ensures forall i :: 0 <= i < |writes| ==> (writes[i].state == Enabled <==> i == iconIndex)
    ensures 0 <= iconIndex < |Aliases| ==> EnabledAt(writes) == {iconIndex}
    ensures !(0 <= iconIndex < |Aliases|) ==> EnabledAt(writes) == {}
  {
    writes := [];
    var index := 0;
    while index < |Aliases|
      invariant 0 <= index <= |Aliases|
      invariant |writes| == index
      invariant forall i :: 0 <= i < index ==> writes[i].alias == Aliases[i]
      invariant forall i :: 0 <= i < index ==> (writes[i].state == Enabled <==> i == iconIndex)
    {
      var state := if index == iconIndex then Enabled else Disabled;
      writes := writes + [Write(Aliases[index], state)];
      index := index + 1;
    }
    AliasesDistinct();
  }

  /** The three alias names differ, so each alias gets exactly one write. */
  lemma AliasesDistinct()
    ensures forall i, j :: 0 <= i < j < |Aliases| ==> Aliases[i] != Aliases[j]
  {
    assert Aliases[0][30] == 'D' && Aliases[1][30] == 'W' && Aliases[2][30] == 'B';
  }
}
