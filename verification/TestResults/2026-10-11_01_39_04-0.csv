TestResult.DisplayName,TestResult.Outcome,TestResult.Duration,TestResult.ResourceCount,RandomSeed
Sniff.ContentSpec (well-formedness),Passed,00:00:00.6500064,943114,4
Sniff.ContentSpecEarlierAttemptsFailed (well-formedness),Passed,00:00:00.3480369,164885,4
Sniff.ContentSpecEarlierAttemptsFailed (correctness),Passed,00:00:00.1227324,167996,4
