/**
 * SimpleExperienceStorageItem's helpers for the experience a single unit carries in the
 * `stored_xp` long of its NBT.
 */
module StoredExperience {
  import opened Wrappers
  import opened ItemContext

  /** `getStoredExperienceUnchecked`: the experience one unit carries; no tag, or a tag
      without the key, reads as 0, and any other reading is the tag's own value. */
  function GetStoredExperienceUnchecked(v: ItemVariant): (r: int)
    ensures v.storedXp.None? ==> r == 0
    ensures r != 0 ==> v.storedXp == Some(r)
  {
    match v.storedXp
    case None => 0
    case Some(x) => x
  }

  /** The variant a unit has after `setStoredExperienceUnchecked(stack, x)`: 0 removes the key,
      any other value is written. */
  function WithStoredExperience(v: ItemVariant, x: int): (r: ItemVariant)
    ensures r.item == v.item
    ensures GetStoredExperienceUnchecked(r) == x
    ensures r.storedXp.None? <==> x == 0
  {
    ItemVariant(v.item, if x == 0 then None else Some(x))
  }

  /** `setStoredExperienceUnchecked`: rewrites the stack's tag in place, ignoring its count. */
  method SetStoredExperienceUnchecked(stack: ItemStack, x: int)
    modifies stack
    ensures stack.Variant() == WithStoredExperience(old(stack.Variant()), x)
    ensures stack.count == old(stack.count)
  {
    if x == 0 {
      // removeSubNbt: newly made empty units stack with emptied ones
      stack.storedXp := None;
    } else {
      stack.storedXp := Some(x);
    }
  }

  /** Setting is normalising: two units of one item are equal after a set exactly when the
      same amount was set, however they got there; in particular every emptied unit equals a
      fresh one. */
  lemma SetDeterminesUnit(a: ItemVariant, b: ItemVariant, x: int, y: int)
    requires a.item == b.item
    ensures WithStoredExperience(a, x) == WithStoredExperience(b, y) <==> x == y
    ensures WithStoredExperience(a, 0) == ItemVariant(a.item, None)
  {
  }

  /** Writing back what was read leaves a unit unchanged, except a unit whose tag holds an
      explicit 0, which loses the key. */
  lemma SetOfGet(v: ItemVariant)
    ensures WithStoredExperience(v, GetStoredExperienceUnchecked(v)) == v <==> v.storedXp != Some(0)
  {
  }

  /** `tryUseExperience`: debits `amount` only when the stack holds at least that much.
      A count other than 1 is an IllegalArgumentException in the source. */
  method TryUseExperience(stack: ItemStack, amount: int) returns (used: bool)
    requires stack.count == 1
    modifies stack
    ensures var stored := GetStoredExperienceUnchecked(old(stack.Variant()));
      && used == (stored >= amount)
      && stack.Variant() == (if used then WithStoredExperience(old(stack.Variant()), stored - amount) else old(stack.Variant()))
      && stack.count == old(stack.count)
  {
    var newAmount := GetStoredExperienceUnchecked(stack.Variant()) - amount;
    if newAmount < 0 {
      used := false;
    } else {
      SetStoredExperienceUnchecked(stack, newAmount);
      used := true;
    }
  }
}
