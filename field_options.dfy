/** The predefined value lists offered for known fields, and the two lookups over them. */
module FieldOptions {
  import opened Wrappers
  import opened Text

  const CustomPrefix := "custom_fields."

  /** `FIELD_OPTIONS`, key by key in the order the object literal lists them: each field that has
    * predefined options with its value list. */
  const Entries: seq<(string, seq<string>)> := [
    ("priority", ["High", "Medium", "Low", "Very High", "Critical", "Not Prioritized"]),
    ("stage", ["Development", "Triage", "Under Review", "Backlog", "In Progress", "Testing", "Done", "Blocked"]),
    ("owner", ["John Smith", "Sarah Johnson", "Mike Chen", "Emily Davis", "Alex Rodriguez", "Lisa Wang",
               "David Brown", "Maria Garcia"]),
    ("status", ["Open", "In Progress", "Resolved", "Closed", "Reopened", "Pending", "Cancelled"]),
    ("department", ["Engineering", "Product", "Design", "Marketing", "Sales", "Support", "Operations", "HR"]),
    ("issue_category_l1", ["Technical Issue", "Feature Request", "Bug Report", "Performance Issue",
                           "Security Concern", "User Experience", "Integration Problem", "Data Issue"]),
    ("issue_category_l2", ["Frontend", "Backend", "Database", "API", "Authentication", "UI/UX", "Mobile",
                           "Infrastructure"]),
    ("issue_category_l3", ["Critical", "Major", "Minor", "Enhancement", "Documentation", "Configuration",
                           "Deployment", "Monitoring"]),
    ("date", ["Today", "Tomorrow", "This Week", "Next Week", "This Month", "Next Month", "Custom Date"]),
    ("severity", ["P0 - Critical", "P1 - High", "P2 - Medium", "P3 - Low", "P4 - Very Low"]),
    ("environment", ["Production", "Staging", "Development", "Testing", "Local", "Preview"]),
    ("type", ["Bug", "Feature", "Task", "Epic", "Story", "Subtask", "Improvement"])
  ]

  /** No key is listed twice. */
  predicate DistinctKeys(es: seq<(string, seq<string>)>)
  {
    forall i, j :: 0 <= i < j < |es| ==> es[i].0 != es[j].0
  }

  /** The value list stored under `k` (the object's own property `k`), if any. */
  function Lookup(es: seq<(string, seq<string>)>, k: string): Option<seq<string>>
  {
    if es == [] then None
    else if es[0].0 == k then Some(es[0].1)
    else Lookup(es[1..], k)
  }

  /** With distinct keys each entry is what its key looks up. */
  lemma {:induction false} LookupFinds(es: seq<(string, seq<string>)>, i: nat)
    requires DistinctKeys(es) && i < |es|
    ensures Lookup(es, es[i].0) == Some(es[i].1)
  {
    if i > 0 {
      assert es[0].0 != es[i].0;
      assert DistinctKeys(es[1..]) by {
        forall a, b | 0 <= a < b < |es| - 1 ensures es[1..][a].0 != es[1..][b].0 {
          assert es[1..][a] == es[a + 1] && es[1..][b] == es[b + 1];
        }
      }
      LookupFinds(es[1..], i - 1);
      assert es[1..][i - 1] == es[i];
    }
  }

  /** A lookup that succeeds returns one of the listed lists. */
  lemma {:induction false} LookupListed(es: seq<(string, seq<string>)>, k: string)
    ensures Lookup(es, k).Some? ==> exists i :: 0 <= i < |es| && es[i] == (k, Lookup(es, k).value)
  {
    if es != [] && es[0].0 != k {
      LookupListed(es[1..], k);
      if Lookup(es, k).Some? {
        var i :| 0 <= i < |es[1..]| && es[1..][i] == (k, Lookup(es, k).value);
        assert es[i + 1] == es[1..][i];
      }
    }
  }

  /** The table key a field id names: the first `custom_fields.` is dropped. */
  function ActualField(field: string): string
  {
    ReplaceFirst(field, CustomPrefix, "")
  }

  /** `getFieldOptions`: the field's list, or `[]` for a field the table does not know. */
  function GetFieldOptions(field: string): seq<string>
  {
    Lookup(Entries, ActualField(field)).GetOr([])
  }

  /** `hasPredefinedOptions`, over the table's own keys. */
  predicate HasPredefinedOptions(field: string)
  {
    Lookup(Entries, ActualField(field)).Some?
  }

  /** The table has twelve keys, none listed twice. */
  lemma TableShape()
    ensures |Entries| == 12 && DistinctKeys(Entries)
  {
    var keys := ["priority", "stage", "owner", "status", "department", "issue_category_l1", "issue_category_l2",
                 "issue_category_l3", "date", "severity", "environment", "type"];
    assert forall i :: 0 <= i < 12 ==> Entries[i].0 == keys[i];
    forall i, j | 0 <= i < j < 12 ensures keys[i] != keys[j] {
      if |keys[i]| == |keys[j]| {
        if 5 <= i <= 6 {
          assert keys[i][|keys[i]| - 1] != keys[j][|keys[j]| - 1];
        } else {
          assert keys[i][0] != keys[j][0];
        }
      }
    }
  }

  /** No table entry is empty. */
  lemma EntriesNonEmpty()
    ensures forall i :: 0 <= i < |Entries| ==> Entries[i].1 != []
  {
  }

  /** So a field has predefined options exactly when its list is non-empty. */
  lemma HasOptionsIffNonEmpty(field: string)
    ensures HasPredefinedOptions(field) <==> GetFieldOptions(field) != []
  {
    LookupListed(Entries, ActualField(field));
    EntriesNonEmpty();
  }

  /** A field id written with the prefix finds the same list as the bare id, as long as the bare id does
    * not itself contain the prefix. */
  lemma PrefixedSameOptions(x: string)
    requires !Contains(x, CustomPrefix)
    ensures GetFieldOptions(CustomPrefix + x) == GetFieldOptions(x)
    ensures HasPredefinedOptions(CustomPrefix + x) == HasPredefinedOptions(x)
  {
    var s := CustomPrefix + x;
    assert s[..|CustomPrefix|] == CustomPrefix && s[|CustomPrefix|..] == x;
    ReplaceFirstAtStart(s, CustomPrefix, "");
    assert "" + x == x;
    ReplaceFirstAbsent(x, CustomPrefix, "");
  }

  /** No table key contains the prefix, so for every key `X` both `custom_fields.X` and `X` find `X`'s list. */
  lemma KeysTakePrefix(i: nat)
    requires i < |Entries|
    ensures GetFieldOptions(CustomPrefix + Entries[i].0) == Entries[i].1
    ensures GetFieldOptions(Entries[i].0) == Entries[i].1
  {
    var x := Entries[i].0;
    forall j | 0 <= j <= |x| - |CustomPrefix| ensures x[j] != CustomPrefix[0] {
    }
    NoFirstChar(x, CustomPrefix);
    PrefixedSameOptions(x);
    ReplaceFirstAbsent(x, CustomPrefix, "");
    TableShape();
    LookupFinds(Entries, i);
  }
}
